/** Names read from a datagram and printed with backslash quotes (adns/parse.c), and when
    the encoder reads such a text back as the same name. */
module DomainText {
  import opened DomainNames

  // ----- printing -----

  /** "\%03o". */
  function Octal(c: Byte): seq<Byte> { [BACKSLASH, 48 + c / 64, 48 + (c / 8) % 8, 48 + c % 8] }

  predicate Plain(c: Byte) { 32 < c < 127 && Unquoted(c) }

  function PrintByte(c: Byte): (r: seq<Byte>)
    ensures |r| > 0
  {
    if c <= 32 || c >= 127 then Octal(c) else if !Unquoted(c) then [BACKSLASH, c] else [c]
  }

  function PrintLabel(l: seq<Byte>): seq<Byte> {
    if l == [] then [] else PrintByte(l[0]) + PrintLabel(l[1..])
  }

  function PrintName(ls: seq<seq<Byte>>): seq<Byte> {
    if ls == [] then []
    else if |ls| == 1 then PrintLabel(ls[0])
    else PrintLabel(ls[0]) + ([DOT] + PrintName(ls[1..]))
  }

  lemma {:induction false} PrintPlain(l: seq<Byte>, rest: seq<Byte>)
    requires forall i :: 0 <= i < |l| ==> Plain(l[i])
    ensures PrintLabel(l + rest) == l + PrintLabel(rest)
  {
    if l == [] {
      assert l + rest == rest;
    } else {
      assert (l + rest)[1..] == l[1..] + rest;
      PrintPlain(l[1..], rest);
    }
  }

  /** One run of plain bytes and the quoted byte after it, if any. */
  lemma PrintRun(vb: seq<Byte>, buf: seq<Byte>, i: nat)
    requires i <= |buf| && forall k :: 0 <= k < i ==> Plain(buf[k])
    ensures vb + PrintLabel(buf)
         == vb + buf[..i] + (if i < |buf| then PrintByte(buf[i]) else [])
            + PrintLabel(if i < |buf| then buf[i + 1..] else [])
  {
    hide PrintByte;
    assert buf == buf[..i] + buf[i..];
    PrintPlain(buf[..i], buf[i..]);
    if i < |buf| { assert buf[i..][1..] == buf[i + 1..]; }
  }

  /** vbuf__append_quoted1035: runs of plain bytes, each followed by one quoted byte. */
  method AppendQuoted(vb: seq<Byte>, lab: seq<Byte>) returns (out: seq<Byte>)
    ensures out == vb + PrintLabel(lab)
  {
    hide PrintLabel;
    out := vb;
    var buf := lab;
    while |buf| > 0
      invariant out + PrintLabel(buf) == vb + PrintLabel(lab)
      decreases |buf|
    {
      var i, qbuf := 0, [];
      while i < |buf| && Plain(buf[i])
        invariant 0 <= i <= |buf|
        invariant forall k :: 0 <= k < i ==> Plain(buf[k])
      {
        i := i + 1;
      }
      PrintRun(out, buf, i);
      if i < |buf| {
        qbuf := if buf[i] <= 32 || buf[i] >= 127 then Octal(buf[i]) else [BACKSLASH, buf[i]];
      }
      out := out + buf[..i] + qbuf;
      buf := if i < |buf| then buf[i + 1..] else [];
    }
    PrintNothing();
  }

  lemma PrintNothing()
    ensures PrintLabel([]) == []
  {
  }

  // ----- names on the wire -----

  function Wire(ls: seq<seq<Byte>>): (w: seq<Byte>)
    requires LabelsOk(ls)
    ensures |w| > 0
  {
    if ls == [] then [0] else [|ls[0]|] + ls[0] + Wire(ls[1..])
  }

  predicate LabelsOk(ls: seq<seq<Byte>>) { forall i :: 0 <= i < |ls| ==> 1 <= |ls[i]| <= DNS_MAXLABEL }

  datatype Problem = UnknownFormat | AnswerDomainTooLong | AnswerDomainInvalid | InvalidResponse

  /** What adns__findlabel_next finds; names with compression are told apart only. */
  datatype Found =
    | Lab(start: nat, len: nat, namelen: nat)
    | NoMore(end: nat)
    | Truncated
    | Compressed
    | Broken(why: Problem)

  function FindLabel(d: seq<Byte>, at: nat, max: nat, namelen: nat): (f: Found)
    ensures f.Lab? ==> f.start == at + 1 && 1 <= f.len < 64 && f.start + f.len <= |d|
  {
    if at >= |d| then Truncated
    else if at >= max then Broken(InvalidResponse)
    else
      var n := d[at];
      if n >= 0xc0 then Compressed
      else if n >= 0x40 then Broken(UnknownFormat)
      else if n == 0 then NoMore(at + 1)
      else
        var total := namelen + (if namelen > 0 then 1 else 0) + n;
        if total > DNS_MAXDOMAIN then Broken(AnswerDomainTooLong)
        else if at + 1 + n > |d| then Truncated
        else if at + 1 + n > max then Broken(InvalidResponse)
        else Lab(at + 1, n, total)
  }

  /** The hostname check on one label. */
  predicate HostLabel(l: seq<Byte>)
    requires l != []
  {
    && (Alpha(l[0]) || Digit(l[0]))
    && forall i :: 1 <= i < |l| ==> l[i] == HYPHEN || Alpha(l[i]) || Digit(l[i])
  }

  datatype Parsed = Text(t: seq<Byte>, end: nat) | Short | Pointer | Fault(why: Problem)

  function ParseName(d: seq<Byte>, at: nat, max: nat, namelen: nat, first: bool, quoteok: bool): Parsed
    decreases |d| - at
  {
    match FindLabel(d, at, max, namelen)
    case Truncated => Short
    case Compressed => Pointer
    case Broken(why) => Fault(why)
    case NoMore(end) => Text([], end)
    case Lab(start, n, total) =>
      var l := d[start..start + n];
      if !quoteok && !HostLabel(l) then Fault(AnswerDomainInvalid)
      else Before(if first then [] else [DOT], l, quoteok, ParseName(d, start + n, max, total, false, quoteok))
  }

  function Before(dot: seq<Byte>, l: seq<Byte>, quoteok: bool, p: Parsed): Parsed {
    if p.Text? then Text(dot + (if quoteok then PrintLabel(l) else l) + p.t, p.end) else p
  }

  /** findlabel_state. */
  class Cursor {
    const dgram: seq<Byte>
    const max: nat
    var cbyte: nat
    var namelen: nat

    constructor (dgram: seq<Byte>, max: nat, begin: nat)
      ensures this.dgram == dgram && this.max == max && cbyte == begin && namelen == 0
    {
      this.dgram, this.max, cbyte, namelen := dgram, max, begin, 0;
    }

    /** adns__findlabel_next up to the first compression pointer. */
    method Next() returns (f: Found)
      modifies this
      ensures f == FindLabel(dgram, old(cbyte), max, old(namelen))
      ensures f.Lab? ==> cbyte == f.start + f.len && namelen == f.namelen
      ensures f.NoMore? ==> cbyte == f.end
    {
      if cbyte >= |dgram| { return Truncated; }
      if cbyte >= max { return Broken(InvalidResponse); }
      var lablen := dgram[cbyte];
      cbyte := cbyte + 1;
      if lablen >= 0xc0 { return Compressed; }
      if lablen >= 0x40 { return Broken(UnknownFormat); }
      var labstart := cbyte;
      if lablen != 0 {
        if namelen != 0 { namelen := namelen + 1; }
        namelen := namelen + lablen;
        if namelen > DNS_MAXDOMAIN { return Broken(AnswerDomainTooLong); }
        cbyte := cbyte + lablen;
        if cbyte > |dgram| { return Truncated; }
        if cbyte > max { return Broken(InvalidResponse); }
        return Lab(labstart, lablen, namelen);
      }
      return NoMore(cbyte);
    }
  }

  /** adns__parse_domain with adns__parse_domain_more. */
  method ParseDomain(d: seq<Byte>, begin: nat, max: nat, quoteok: bool) returns (r: Parsed)
    ensures r == ParseName(d, begin, max, 0, true, quoteok)
  {
    hide PrintLabel, FindLabel, HostLabel, ParseName, Before, Behind;
    var fls := new Cursor(d, max, begin);
    var vb: seq<Byte> := [];
    var first := true;
    BehindIs([], ParseName(d, begin, max, 0, true, quoteok));
    while true
      invariant fls.dgram == d && fls.max == max
      invariant ParseName(d, begin, max, 0, true, quoteok)
             == Behind(vb, ParseName(d, fls.cbyte, max, fls.namelen, first, quoteok))
      decreases |d| - fls.cbyte
    {
      ParseStep(d, fls.cbyte, max, fls.namelen, first, quoteok);
      BehindIs(vb, ParseName(d, fls.cbyte, max, fls.namelen, first, quoteok));
      ghost var at := fls.cbyte;
      var f := fls.Next();
      FoundIn(d, at, max, f);
      match f {
        case Truncated => return Short;
        case Compressed => return Pointer;
        case Broken(why) => return Fault(why);
        case NoMore(end) => return Text(vb, end);
        case Lab(start, n, _) =>
          var l := d[start..start + n];
          BehindBefore(vb, if first then [] else [DOT], l, quoteok,
              ParseName(d, start + n, max, fls.namelen, false, quoteok));
          assert vb + [] == vb;
          if first { first := false; } else { vb := vb + [DOT]; }
          if quoteok {
            vb := AppendQuoted(vb, l);
          } else {
            if !HostLabel(l) { return Fault(AnswerDomainInvalid); }
            vb := vb + l;
          }
      }
    }
  }

  function Behind(vb: seq<Byte>, p: Parsed): Parsed { if p.Text? then Text(vb + p.t, p.end) else p }

  lemma FoundIn(d: seq<Byte>, at: nat, max: nat, f: Found)
    requires exists namelen: nat :: f == FindLabel(d, at, max, namelen)
    ensures f.Lab? ==> at < f.start && 1 <= f.len && f.start + f.len <= |d|
  {
  }

  lemma BehindIs(vb: seq<Byte>, p: Parsed)
    ensures Behind([], p) == p
    ensures !p.Text? ==> Behind(vb, p) == p
    ensures p.Text? && p.t == [] ==> Behind(vb, p) == Text(vb, p.end)
  {
  }

  lemma ParseStep(d: seq<Byte>, at: nat, max: nat, namelen: nat, first: bool, quoteok: bool)
    ensures ParseName(d, at, max, namelen, first, quoteok) ==
      match FindLabel(d, at, max, namelen)
      case Truncated => Short
      case Compressed => Pointer
      case Broken(why) => Fault(why)
      case NoMore(end) => Text([], end)
      case Lab(start, n, total) =>
        var l := d[start..start + n];
        if !quoteok && !HostLabel(l) then Fault(AnswerDomainInvalid)
        else Before(if first then [] else [DOT], l, quoteok, ParseName(d, start + n, max, total, false, quoteok))
  {
  }

  lemma BehindBefore(vb: seq<Byte>, dot: seq<Byte>, l: seq<Byte>, quoteok: bool, p: Parsed)
    ensures Behind(vb, Before(dot, l, quoteok, p)) == Behind(vb + dot + (if quoteok then PrintLabel(l) else l), p)
  {
    var x := if quoteok then PrintLabel(l) else l;
    if p.Text? { assert vb + (dot + x + p.t) == vb + dot + x + p.t; }
  }

  // ----- reading the printed text -----

  /** The byte that the encoder takes for a printed byte: three digits are printed in
      octal but read in decimal. */
  function Reread(b: Byte): Step {
    if b <= 32 || b >= 127 then
      var c: int := 100 * (b / 64) + 10 * ((b / 8) % 8) + b % 8;
      if c >= 256 then Wrong else Take(c, 4)
    else Take(b, |PrintByte(b)|)
  }

  /** Bytes that come back as they were. */
  predicate Faithful(b: Byte) { b <= 7 || 33 <= b <= 126 }

  predicate AllFaithful(ls: seq<seq<Byte>>) {
    forall i, j :: 0 <= i < |ls| && 0 <= j < |ls[i]| ==> Faithful(ls[i][j])
  }

  lemma RereadIs(b: Byte)
    ensures Reread(b).Take? && Reread(b).b == b <==> Faithful(b)
  {
    var h, m, l := b as int / 64, (b as int / 8) % 8, b as int % 8;
    assert b as int == 64 * h + 8 * m + l;
  }

  lemma ReadPrintedByte(b: Byte, rest: seq<Byte>)
    ensures var t := PrintByte(b) + rest;
      t[0] != DOT && NextByte(t, true) == Reread(b)
    ensures Reread(b).Take? ==> Reread(b).n == |PrintByte(b)|
  {
    var t := PrintByte(b) + rest;
    if b <= 32 || b >= 127 {
      assert t[1] == 48 + b / 64 && t[2] == 48 + (b / 8) % 8 && t[3] == 48 + b % 8;
    } else if !Unquoted(b) {
      assert t[1] == b;
    }
  }

  datatype Relabel = Bytes(l: seq<Byte>) | NoLabel

  function RereadAll(l: seq<Byte>): (r: Relabel)
    ensures r.Bytes? ==> |r.l| == |l|
  {
    if l == [] then Bytes([])
    else if Reread(l[0]).Wrong? || RereadAll(l[1..]).NoLabel? then NoLabel
    else Bytes([Reread(l[0]).b] + RereadAll(l[1..]).l)
  }

  lemma {:induction false} RereadAllIs(l: seq<Byte>)
    ensures RereadAll(l) == Bytes(l) <==> forall j :: 0 <= j < |l| ==> Faithful(l[j])
  {
    if l != [] {
      RereadIs(l[0]);
      RereadAllIs(l[1..]);
      if forall j :: 0 <= j < |l| ==> Faithful(l[j]) {
        assert RereadAll(l) == Bytes([l[0]] + l[1..]);
      } else {
        var j :| 0 <= j < |l| && !Faithful(l[j]);
        if j > 0 { assert l[1..][j - 1] == l[j]; }
        if RereadAll(l).Bytes? {
          assert RereadAll(l).l[1..] == RereadAll(l[1..]).l;
        }
      }
    }
  }

  lemma ReadEnd(t: seq<Byte>, acc: seq<Byte>)
    requires |acc| <= 255 && (t == [] || t[0] == DOT)
    ensures ReadLabel(t, true, acc) == Label(acc, if t == [] then [] else t[1..])
  {
  }

  lemma ReadOne(t: seq<Byte>, acc: seq<Byte>)
    requires |acc| < 255 && t != [] && t[0] != DOT
    ensures var s := NextByte(t, true);
      ReadLabel(t, true, acc) == if s.Wrong? then Bad else ReadLabel(t[s.n..], true, acc + [s.b])
  {
    hide NextByte;
  }

  lemma PrintedStep(l: seq<Byte>, rest: seq<Byte>)
    requires l != []
    ensures PrintLabel(l) + rest == PrintByte(l[0]) + (PrintLabel(l[1..]) + rest)
    ensures (PrintByte(l[0]) + (PrintLabel(l[1..]) + rest))[|PrintByte(l[0])|..] == PrintLabel(l[1..]) + rest
  {
    hide PrintByte;
  }

  /** What reading a printed label gives. */
  function ReadAs(r: Relabel, rest: seq<Byte>, acc: seq<Byte>): Reading {
    if r.NoLabel? then Bad else Label(acc + r.l, if rest == [] then [] else rest[1..])
  }

  lemma ReadingStep(l: seq<Byte>, rest: seq<Byte>, acc: seq<Byte>)
    requires l != []
    ensures ReadAs(RereadAll(l), rest, acc)
         == if Reread(l[0]).Wrong? then Bad else ReadAs(RereadAll(l[1..]), rest, acc + [Reread(l[0]).b])
  {
    hide Reread;
    var r := RereadAll(l[1..]);
    if Reread(l[0]).Take? && r.Bytes? { assert acc + [Reread(l[0]).b] + r.l == acc + ([Reread(l[0]).b] + r.l); }
  }

  lemma {:induction false} ReadPrintedLabel(l: seq<Byte>, rest: seq<Byte>, acc: seq<Byte>)
    requires |acc| + |l| <= DNS_MAXLABEL && (rest == [] || rest[0] == DOT)
    ensures ReadLabel(PrintLabel(l) + rest, true, acc) == ReadAs(RereadAll(l), rest, acc)
    decreases |l|
  {
    hide PrintByte, NextByte, Reread, ReadLabel;
    if l == [] {
      assert PrintLabel(l) + rest == rest;
      assert acc + [] == acc;
      ReadEnd(rest, acc);
    } else {
      hide PrintLabel, ReadAs, RereadAll;
      var t := PrintLabel(l[1..]) + rest;
      PrintedStep(l, rest);
      ReadPrintedByte(l[0], t);
      ReadOne(PrintByte(l[0]) + t, acc);
      ReadingStep(l, rest, acc);
      if Reread(l[0]).Take? { ReadPrintedLabel(l[1..], rest, acc + [Reread(l[0]).b]); }
    }
  }

  /** The encoding of a printed name, label by label. */
  function Recode(ls: seq<seq<Byte>>, nbytes: nat): Encoding {
    if ls == [] then Name([0])
    else match RereadAll(ls[0])
      case NoLabel => Fails(QueryDomainInvalid)
      case Bytes(l) =>
        if nbytes + |l| + 1 >= DNS_MAXDOMAIN || |l| > 255 then Fails(QueryDomainTooLong)
        else Prepend([|l|] + l, Recode(ls[1..], nbytes + |l| + 1))
  }

  lemma {:induction false} EncodePrinted(ls: seq<seq<Byte>>, nbytes: nat)
    requires LabelsOk(ls)
    ensures EncodeName(PrintName(ls), true, nbytes) == Recode(ls, nbytes)
    ensures ls != [] ==> PrintName(ls) != []
    decreases |ls|
  {
    hide ReadLabel, RereadAll;
    if ls != [] {
      var rest := if |ls| == 1 then [] else [DOT] + PrintName(ls[1..]);
      assert PrintName(ls) == PrintLabel(ls[0]) + rest;
      ReadPrintedLabel(ls[0], rest, []);
      assert forall r: seq<Byte> :: [] + r == r;
      EncodePrinted(ls[1..], nbytes + |ls[0]| + 1);
      assert rest != [] ==> rest[1..] == PrintName(ls[1..]);
      assert |ls| == 1 ==> ls[1..] == [];
      assert PrintName(ls) != [];
      NameStep(PrintName(ls), true, nbytes);
    }
  }

  lemma {:induction false} RecodeIs(ls: seq<seq<Byte>>, nbytes: nat)
    requires LabelsOk(ls)
    ensures Recode(ls, nbytes) == Name(Wire(ls))
       <==> AllFaithful(ls) && (ls != [] ==> nbytes + |Wire(ls)| <= DNS_MAXDOMAIN)
    decreases |ls|
  {
    hide RereadAll;
    if ls != [] {
      var l, rest := ls[0], ls[1..];
      RereadAllIs(l);
      RecodeIs(rest, nbytes + |l| + 1);
      assert AllFaithful(ls) <==> (forall j :: 0 <= j < |l| ==> Faithful(l[j])) && AllFaithful(rest) by {
        SplitFaithful(ls);
      }
      var r := Recode(ls, nbytes);
      if r.Name? {
        var l' := RereadAll(l).l;
        var tail := Recode(rest, nbytes + |l| + 1).bytes;
        assert r.bytes[1..1 + |l|] == l' && r.bytes[1 + |l|..] == tail;
        assert Wire(ls)[1..1 + |l|] == l && Wire(ls)[1 + |l|..] == Wire(rest);
      }
    }
  }

  lemma SplitFaithful(ls: seq<seq<Byte>>)
    requires ls != []
    ensures AllFaithful(ls) <==> (forall j :: 0 <= j < |ls[0]| ==> Faithful(ls[0][j])) && AllFaithful(ls[1..])
  {
    if AllFaithful(ls[1..]) && (forall j :: 0 <= j < |ls[0]| ==> Faithful(ls[0][j])) {
      forall i, j | 0 <= i < |ls| && 0 <= j < |ls[i]| ensures Faithful(ls[i][j]) {
        if i > 0 { assert ls[i] == ls[1..][i - 1]; }
      }
    }
  }

  /** Encoding the printed text gives the wire name back exactly when the wire name has at
      most 255 bytes and none of its label bytes is one of those that are printed as an
      octal number other than a single digit; then also whatever is in memory behind the text. */
  lemma PrintedEncodes(ls: seq<seq<Byte>>)
    requires LabelsOk(ls)
    ensures EncodeName(PrintName(ls), true, 0) == Name(Wire(ls)) <==> AllFaithful(ls) && |Wire(ls)| <= DNS_MAXDOMAIN
    ensures AllFaithful(ls) && |Wire(ls)| <= DNS_MAXDOMAIN ==> TextAlone(PrintName(ls), true)
  {
    hide EncodeName, CutOff, TextAlone;
    EncodePrinted(ls, 0);
    RecodeIs(ls, 0);
    if AllFaithful(ls) && |Wire(ls)| <= DNS_MAXDOMAIN {
      NameNotCut(PrintName(ls), true, 0);
      EncodesExact(PrintName(ls), true);
    }
  }

  // ----- whole datagrams -----

  lemma {:induction false} ParsedLabels(d: seq<Byte>, at: nat, max: nat, namelen: nat, first: bool)
      returns (ls: seq<seq<Byte>>)
    requires ParseName(d, at, max, namelen, first, true).Text?
    ensures LabelsOk(ls)
    ensures var p := ParseName(d, at, max, namelen, first, true);
      && at < p.end <= |d| && Wire(ls) == d[at..p.end]
      && p.t == if first || ls == [] then PrintName(ls) else [DOT] + PrintName(ls)
    decreases |d| - at
  {
    hide PrintLabel, ParseName;
    var p := ParseName(d, at, max, namelen, first, true);
    ParseStep(d, at, max, namelen, first, true);
    var f := FindLabel(d, at, max, namelen);
    if f.NoMore? {
      ls := [];
      assert d[at..p.end] == [0];
    } else {
      var l := d[f.start..f.start + f.len];
      var rest := ParsedLabels(d, f.start + f.len, max, f.namelen, false);
      ls := [l] + rest;
      assert ls[1..] == rest;
      assert d[at..p.end] == [|l|] + l + d[f.start + f.len..p.end];
      assert [] + PrintLabel(l) == PrintLabel(l);
      if rest == [] { assert PrintLabel(l) + [] == PrintLabel(l); } else { PrintMore(ls, first); }
    }
  }

  /** Every uncompressed name that the reader accepts is a sequence of labels; its printed
      text encodes to the same bytes exactly under the condition of PrintedEncodes. */
  lemma ParsedEncodes(d: seq<Byte>, begin: nat, max: nat) returns (ls: seq<seq<Byte>>)
    requires ParseName(d, begin, max, 0, true, true).Text?
    ensures var p := ParseName(d, begin, max, 0, true, true);
      && begin < p.end <= |d| && LabelsOk(ls) && d[begin..p.end] == Wire(ls) && p.t == PrintName(ls)
      && (EncodeName(p.t, true, 0) == Name(d[begin..p.end]) <==> AllFaithful(ls) && p.end - begin <= DNS_MAXDOMAIN)
  {
    ls := ParsedLabels(d, begin, max, 0, true);
    PrintedEncodes(ls);
  }

  lemma WireHead(pre: seq<Byte>, ls: seq<seq<Byte>>, post: seq<Byte>)
    requires LabelsOk(ls) && ls != []
    ensures var d, n, pre' := pre + Wire(ls) + post, |ls[0]|, pre + ([|ls[0]|] + ls[0]);
      && |pre| + 1 + n <= |d| && d[|pre|] == n && d[|pre| + 1..|pre| + 1 + n] == ls[0]
      && d == pre' + Wire(ls[1..]) + post && |Wire(ls)| == 1 + n + |Wire(ls[1..])|
      && (|ls| > 1 ==> |Wire(ls[1..])| >= 2)
  {
    var n, w := |ls[0]|, Wire(ls[1..]);
    assert Wire(ls) == ([n] + ls[0]) + w;
    if |ls| > 1 { assert |Wire(ls[1..])| == 1 + |ls[1]| + |Wire(ls[1..][1..])|; }
    hide Wire, LabelsOk;
    Between(pre, [n] + ls[0], w, post);
    var d := pre + Wire(ls) + post;
    assert d[|pre|..|pre| + 1 + n] == [n] + ls[0];
    assert d[|pre| + 1..|pre| + 1 + n] == d[|pre|..|pre| + 1 + n][1..];
  }

  lemma Between(pre: seq<Byte>, a: seq<Byte>, b: seq<Byte>, post: seq<Byte>)
    ensures pre + (a + b) + post == (pre + a) + b + post
    ensures (pre + (a + b) + post)[|pre|..|pre| + |a|] == a
  {
  }

  lemma {:induction false} WireParsed(pre: seq<Byte>, ls: seq<seq<Byte>>, post: seq<Byte>, max: nat, namelen: nat,
      first: bool)
    requires LabelsOk(ls) && |pre| + |Wire(ls)| <= max
    requires ls != [] ==> namelen + (if namelen > 0 then 1 else 0) + |Wire(ls)| - 2 <= DNS_MAXDOMAIN
    ensures ParseName(pre + Wire(ls) + post, |pre|, max, namelen, first, true)
         == Text(if first || ls == [] then PrintName(ls) else [DOT] + PrintName(ls), |pre| + |Wire(ls)|)
    decreases |ls|
  {
    hide PrintLabel, ParseName;
    var d := pre + Wire(ls) + post;
    ParseStep(d, |pre|, max, namelen, first, true);
    if ls == [] {
      assert d[|pre|] == 0;
    } else {
      hide Wire;
      var l, rest := ls[0], ls[1..];
      WireHead(pre, ls, post);
      var total := namelen + (if namelen > 0 then 1 else 0) + |l|;
      var p := ParseName(d, |pre| + 1 + |l|, max, total, false, true);
      assert p == Text(if |ls| == 1 then [] else [DOT] + PrintName(rest), |pre| + |Wire(ls)|) by {
        WireParsed(pre + ([|l|] + l), rest, post, max, total, false);
        assert |ls| == 1 ==> PrintName(rest) == [];
      }
      assert FindLabel(d, |pre|, max, namelen) == Lab(|pre| + 1, |l|, total);
      hide FindLabel, PrintName;
      PrintMore(ls, first);
    }
  }

  /** Printing a first label, with the dot before it, and the rest. */
  lemma PrintMore(ls: seq<seq<Byte>>, first: bool)
    requires ls != []
    ensures var t := PrintLabel(ls[0]) + (if |ls| == 1 then [] else [DOT] + PrintName(ls[1..]));
      PrintName(ls) == t
    ensures first ==> [] + PrintLabel(ls[0]) + (if |ls| == 1 then [] else [DOT] + PrintName(ls[1..])) == PrintName(ls)
    ensures !first ==>
      [DOT] + PrintLabel(ls[0]) + (if |ls| == 1 then [] else [DOT] + PrintName(ls[1..])) == [DOT] + PrintName(ls)
  {
    hide PrintLabel;
    var q: seq<Byte> := if |ls| == 1 then [] else [DOT] + PrintName(ls[1..]);
    assert PrintName(ls) == PrintLabel(ls[0]) + q by {
      if |ls| == 1 { assert PrintLabel(ls[0]) + [] == PrintLabel(ls[0]); }
    }
    hide *;
    Assoc([], PrintLabel(ls[0]), q);
    Assoc([DOT], PrintLabel(ls[0]), q);
    assert [] + PrintName(ls) == PrintName(ls);
  }

  lemma Assoc(a: seq<Byte>, p: seq<Byte>, q: seq<Byte>)
    ensures a + p + q == a + (p + q)
  {
  }

  /** And every wire name of at most 257 bytes within the limits is read as its text. */
  lemma WireReads(pre: seq<Byte>, ls: seq<seq<Byte>>, post: seq<Byte>, max: nat)
    requires LabelsOk(ls) && |pre| + |Wire(ls)| <= max && |Wire(ls)| <= DNS_MAXDOMAIN + 2
    ensures ParseName(pre + Wire(ls) + post, |pre|, max, 0, true, true) == Text(PrintName(ls), |pre| + |Wire(ls)|)
  {
    WireParsed(pre, ls, post, max, 0, true);
  }
}
