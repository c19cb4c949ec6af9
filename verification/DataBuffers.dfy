/** Line framing over a chain of fixed-size buffers (src/dbuf.c). */
module DataBuffers {
  import opened Text

  const DBUF_SIZE := 1024

  predicate IsEol(c: char) { c == '\r' || c == '\n' }

  /** One buffer of the chain: `data` up to its end pointer, read up to `start`. */
  datatype Buffer = Buffer(start: nat, data: string)

  predicate BufferOk(b: Buffer) { b.start < |b.data| <= DBUF_SIZE }

  function Rest(b: Buffer): string
    requires b.start <= |b.data|
  {
    b.data[b.start..]
  }

  /** The bytes held by a chain. */
  function Flat(bs: seq<Buffer>): string
    requires forall i :: 0 <= i < |bs| ==> BufferOk(bs[i])
  {
    if bs == [] then ""
    else
      assert BufferOk(bs[0]);
      Rest(bs[0]) + Flat(bs[1..])
  }

  // ----- lines -----

  /** Index of the first line terminator, or the length. */
  function FirstEol(s: string): (k: nat)
    ensures k <= |s|
    ensures k < |s| ==> IsEol(s[k])
    ensures forall i :: 0 <= i < k ==> !IsEol(s[i])
  {
    if s == "" || IsEol(s[0]) then 0 else 1 + FirstEol(s[1..])
  }

  function DropEols(s: string): (r: string)
    ensures r != "" ==> !IsEol(r[0])
  {
    if s != "" && IsEol(s[0]) then DropEols(s[1..]) else s
  }

  /** The complete lines of a byte string, without the empty ones. */
  function Lines(s: string): seq<string>
    decreases |s|
  {
    var k := FirstEol(s);
    if k == |s| then [] else (if k > 0 then [s[..k]] else []) + Lines(s[k + 1..])
  }

  predicate AllEols(s: string) { forall i :: 0 <= i < |s| ==> IsEol(s[i]) }

  /** Empty, or ending with a line terminator. */
  predicate WholeLines(s: string) { s == "" || IsEol(s[|s| - 1]) }

  lemma FirstEolAt(s: string, k: nat)
    requires k < |s| && IsEol(s[k]) && forall i :: 0 <= i < k ==> !IsEol(s[i])
    ensures FirstEol(s) == k
  {
  }

  lemma LinesStep(s: string)
    requires FirstEol(s) < |s|
    ensures var k := FirstEol(s); Lines(s) == (if k > 0 then [s[..k]] else []) + Lines(s[k + 1..])
  {
  }

  lemma LinesNone()
    ensures Lines("") == []
  {
  }

  lemma Regrouped<T>(a: seq<T>, b: seq<T>, c: seq<T>)
    ensures a + b + c == a + (b + c)
  {
  }

  /** The first terminator of `p` is that of `p + s`, and splits both alike. */
  lemma EolOfBoth(p: string, s: string)
    requires FirstEol(p) < |p|
    ensures var k := FirstEol(p);
      FirstEol(p + s) == k && (p + s)[..k] == p[..k] && (p + s)[k + 1..] == p[k + 1..] + s
  {
    FirstEolAt(p + s, FirstEol(p));
  }

  lemma {:induction false} LinesAppend(p: string, s: string)
    requires WholeLines(p)
    ensures Lines(p + s) == Lines(p) + Lines(s)
    decreases |p|
  {
    hide Lines;
    if p == "" {
      assert p + s == s;
      LinesNone();
    } else {
      var k := FirstEol(p);
      EolOfBoth(p, s);
      LinesStep(p);
      LinesStep(p + s);
      LinesAppend(p[k + 1..], s);
      Regrouped(if k > 0 then [p[..k]] else [], Lines(p[k + 1..]), Lines(s));
    }
  }

  lemma {:induction false} LinesOfEols(e: string)
    requires AllEols(e)
    ensures Lines(e) == []
    decreases |e|
  {
    if e != "" {
      FirstEolAt(e, 0);
      LinesOfEols(e[1..]);
    }
  }

  /** One line and its terminators. */
  lemma LinesOfOne(l: string, e: string)
    requires l != "" && FirstEol(l) == |l| && e != "" && AllEols(e)
    ensures Lines(l + e) == [l]
  {
    FirstEolAt(l + e, |l|);
    assert (l + e)[..|l|] == l && (l + e)[|l| + 1..] == e[1..];
    LinesOfEols(e[1..]);
  }

  lemma {:induction false} DropEolsIs(s: string) returns (e: string)
    ensures AllEols(e) && s == e + DropEols(s)
    ensures s != "" && IsEol(s[0]) ==> e != ""
  {
    if s != "" && IsEol(s[0]) {
      var e' := DropEolsIs(s[1..]);
      e := [s[0]] + e';
      assert s == [s[0]] + s[1..];
    } else {
      e := "";
    }
  }

  // ----- dbuf_getmsg as a function -----

  /** The message returned, if any, and the bytes that stay. */
  function GetMsgIs(s: string, max: nat): (Option<string>, string) {
    var s1 := DropEols(s);
    var k := FirstEol(s1);
    if k < |s1| && k < max then (Some(s1[..k]), DropEols(s1[k..])) else (None, s1)
  }

  /** What has been read so far, `done`, and what is left, `s`, make up everything put;
      the messages are the lines of `done`. */
  ghost predicate Framed(total: string, done: string, s: string, msgs: seq<string>) {
    total == done + s && WholeLines(done) && Lines(done) == msgs
  }

  lemma FramedLines(total: string, done: string, s: string, msgs: seq<string>)
    requires Framed(total, done, s, msgs)
    ensures Lines(total) == msgs + Lines(s)
  {
    LinesAppend(done, s);
  }

  lemma FramedPut(total: string, done: string, s: string, msgs: seq<string>, more: string)
    requires Framed(total, done, s, msgs)
    ensures Framed(total + more, done, s + more, msgs)
  {
    assert done + s + more == done + (s + more);
  }

  lemma FramedSkip(total: string, done: string, s: string, msgs: seq<string>, l: string, e: string, rest: string)
    requires Framed(total, done, s, msgs) && AllEols(e) && s == l + e + rest
    requires l == "" || (e != "" && FirstEol(l) == |l|)
    ensures Framed(total, done + (l + e), rest, msgs + if l == "" then [] else [l])
  {
    hide Lines, FirstEol;
    LinesAppend(done, l + e);
    Regroup(done, l, e, rest);
    if l == "" {
      assert l + e == e;
      LinesOfEols(e);
    } else {
      LinesOfOne(l, e);
    }
    assert WholeLines(done + (l + e));
  }

  lemma Regroup(a: string, b: string, c: string, d: string)
    ensures a + (b + c) + d == a + (b + c + d)
  {
  }

  /** Taking a message keeps the books, whatever room the caller has. */
  lemma FramedGet(total: string, done: string, s: string, msgs: seq<string>, max: nat) returns (done': string)
    requires Framed(total, done, s, msgs)
    ensures var (m, s') := GetMsgIs(s, max);
      && Framed(total, done', s', msgs + if m.Some? then [m.value] else [])
      && (m.Some? ==>
            && m.value != "" && |m.value| < max && FirstEol(m.value) == |m.value|
            && Lines(s) != [] && Lines(s)[0] == m.value)
  {
    hide Lines, Framed, FirstEol, DropEols;
    var e := DropEolsIs(s);
    var s1 := DropEols(s);
    assert "" + e + s1 == s;
    assert msgs + [] == msgs;
    FramedSkip(total, done, s, msgs, "", e, s1);
    done' := done + ("" + e);
    var k := FirstEol(s1);
    if k < |s1| && k < max {
      var l := s1[..k];
      var e2 := DropEolsIs(s1[k..]);
      assert s1 == l + s1[k..];
      Regroup("", l, e2, DropEols(s1[k..]));
      assert l + e2 + DropEols(s1[k..]) == l + (e2 + DropEols(s1[k..]));
      NoEolIn(l);
      FramedSkip(total, done', s1, msgs, l, e2, DropEols(s1[k..]));
      done' := done' + (l + e2);
      FirstLine(s, e, l, e2, DropEols(s1[k..]));
    }
  }

  /** Said of the lines alone: the first complete line is returned if and only if there is one that is shorter
      than the room, and then exactly that one is gone. */
  lemma GetMsgLines(s: string, max: nat)
    ensures var (m, s') := GetMsgIs(s, max);
      && m == (if Lines(s) != [] && |Lines(s)[0]| < max then Some(Lines(s)[0]) else None)
      && Lines(s') == if m.Some? then Lines(s)[1..] else Lines(s)
  {
    hide Lines, DropEols, FirstEol, WholeLines;
    var e := DropEolsIs(s);
    var s1 := DropEols(s);
    Leading(e, s1);
    var k := FirstEol(s1);
    if k < |s1| {
      assert k > 0;
      LinesStep(s1);
      assert s1[k..] == [s1[k]] + s1[k + 1..];
      var e2 := DropEolsIs(s1[k..]);
      Leading(e2, DropEols(s1[k..]));
      Leading([s1[k]], s1[k + 1..]);
      assert Lines(s1) == [s1[..k]] + Lines(s1[k + 1..]);
    } else {
      NoLine(s1);
    }
  }

  /** Line ends in front make no lines. */
  lemma Leading(e: string, s: string)
    requires AllEols(e)
    ensures Lines(e + s) == Lines(s)
  {
    LinesAppend(e, s);
    LinesOfEols(e);
  }

  lemma NoLine(s: string)
    requires FirstEol(s) == |s|
    ensures Lines(s) == []
  {
  }

  lemma NoEolIn(l: string)
    requires forall i :: 0 <= i < |l| ==> !IsEol(l[i])
    ensures FirstEol(l) == |l|
  {
  }

  lemma FirstLine(s: string, e: string, l: string, e2: string, rest: string)
    requires AllEols(e) && l != "" && FirstEol(l) == |l| && e2 != "" && AllEols(e2) && s == e + (l + e2 + rest)
    ensures Lines(s) != [] && Lines(s)[0] == l
  {
    LinesOfEols(e);
    LinesAppend(e, l + e2 + rest);
    LinesOfOne(l, e2);
    LinesAppend(l + e2, rest);
  }

  // ----- chains -----

  lemma {:induction false} FlatConcat(a: seq<Buffer>, b: seq<Buffer>)
    requires forall i :: 0 <= i < |a| ==> BufferOk(a[i])
    requires forall i :: 0 <= i < |b| ==> BufferOk(b[i])
    ensures Flat(a + b) == Flat(a) + Flat(b)
  {
    if a == [] {
      assert a + b == b;
    } else {
      FlatConcat(a[1..], b);
      assert (a + b)[1..] == a[1..] + b;
    }
  }

  lemma FlatOne(b: Buffer)
    requires BufferOk(b)
    ensures Flat([b]) == Rest(b)
  {
    assert [b][1..] == [];
  }

  lemma FlatSplit(bs: seq<Buffer>, i: nat)
    requires i < |bs| && forall j :: 0 <= j < |bs| ==> BufferOk(bs[j])
    ensures Flat(bs) == Flat(bs[..i]) + Rest(bs[i]) + Flat(bs[i + 1..])
    ensures Flat(bs[..i + 1]) == Flat(bs[..i]) + Rest(bs[i])
  {
    hide Flat, Rest;
    FlatOne(bs[i]);
    assert bs[..i + 1] == bs[..i] + [bs[i]];
    FlatConcat(bs[..i], [bs[i]]);
    assert bs == bs[..i + 1] + bs[i + 1..];
    FlatConcat(bs[..i + 1], bs[i + 1..]);
  }

  class DBuf {
    var bufs: seq<Buffer>
    var length: nat

    ghost predicate Valid()
      reads this
    {
      && (forall i :: 0 <= i < |bufs| ==> BufferOk(bufs[i]))
      && length == |Flat(bufs)|
    }

    ghost function Contents(): string
      reads this
      requires Valid()
    {
      Flat(bufs)
    }

    constructor ()
      ensures Valid() && Contents() == ""
    {
      bufs, length := [], 0;
      new;
      NoBuffers(bufs);
    }

    /** dbuf_put: the last buffer is filled up first, then new ones are allocated. */
    method Put(buf: string)
      requires Valid()
      modifies this
      ensures Valid() && Contents() == old(Contents()) + buf
    {
      hide Flat, FilledWith;
      ghost var was := Contents();
      NoBuffers(bufs);
      var h := if length == 0 then 0 else |bufs| - 1;
      var pos := 0;
      assert was + buf[..0] == was;
      while pos < |buf|
        invariant pos <= |buf| && 0 <= h <= |bufs| && h >= |bufs| - 1
        invariant forall i :: 0 <= i < |bufs| ==> BufferOk(bufs[i])
        invariant Flat(bufs) == was + buf[..pos] && length == |was|
        decreases |buf| - pos, |bufs| - h
      {
        var d := if h == |bufs| then Buffer(0, "") else bufs[h];
        var chunk := DBUF_SIZE - |d.data|;
        if chunk != 0 {
          if chunk > |buf| - pos { chunk := |buf| - pos; }
          Fill(bufs, h, d, buf[pos..pos + chunk]);
          assert buf[..pos + chunk] == buf[..pos] + buf[pos..pos + chunk];
          Regrouped(was, buf[..pos], buf[pos..pos + chunk]);
          bufs := FilledWith(bufs, h, d, buf[pos..pos + chunk]);
          pos := pos + chunk;
        }
        h := h + 1;
      }
      assert buf[..pos] == buf;
      length := length + |buf|;
    }

    /** dbuf_delete. */
    method Delete(n: nat)
      requires Valid()
      modifies this
      ensures Valid() && Contents() == if n <= |old(Contents())| then old(Contents())[n..] else ""
    {
      hide Flat, Consumed, IsEol;
      ghost var was := Contents();
      var left := if n > length then length else n;
      ghost var gone := 0;
      assert was[0..] == was;
      while left > 0
        invariant Valid() && 0 <= gone && 0 <= left && gone + left == (if n > |was| then |was| else n) <= |was|
        invariant Contents() == was[gone..]
        decreases left
      {
        NoBuffers(bufs);
        var db := bufs[0];
        var chunk := |db.data| - db.start;
        if chunk > left { chunk := left; }
        Consume(bufs, chunk);
        DropTwice(was, gone, chunk);
        left, length := left - chunk, length - chunk;
        bufs := Consumed(bufs, chunk);
        gone := gone + chunk;
      }
      assert gone == |was| ==> was[gone..] == "";
    }

    /** dbuf_get. */
    method Get(n: nat) returns (moved: string)
      requires Valid()
      modifies this
      ensures Valid() && old(Contents()) == moved + Contents()
      ensures |moved| == if n <= |old(Contents())| then n else |old(Contents())|
    {
      hide Flat, Consumed;
      moved := "";
      ghost var was := Contents();
      while |moved| < n && length != 0
        invariant Valid() && was == moved + Contents() && |moved| <= n
        decreases n - |moved|
      {
        NoBuffers(bufs);
        var chunk := |bufs[0].data| - bufs[0].start;
        if chunk > n - |moved| { chunk := n - |moved|; }
        ghost var c := Contents();
        Consume(bufs, chunk);
        MovedMore(was, moved, c, chunk);
        moved := moved + bufs[0].data[bufs[0].start..bufs[0].start + chunk];
        Delete(chunk);
      }
    }

    /** dbuf_flush: line terminators at the front are dropped. */
    method Flush() returns (n: nat)
      requires Valid()
      modifies this
      ensures Valid() && Contents() == DropEols(old(Contents())) && n == length
    {
      hide Flat;
      NoBuffers(bufs);
      if |bufs| == 0 { return 0; }
      while IsEol(bufs[0].data[bufs[0].start])
        invariant Valid() && |bufs| > 0 && DropEols(Contents()) == DropEols(old(Contents()))
        decreases length
      {
        Consume(bufs, 1);
        NoBuffers(bufs);
        DropOne(Contents());
        ghost var c := Contents();
        bufs := Consumed(bufs, 1);
        length := length - 1;
        NoBuffers(bufs);
        if |bufs| == 0 { return 0; }
      }
      NoBuffers(bufs);
      return length;
    }

    /** The copy loop of dbuf_getmsg over one buffer: up to a terminator or `left` bytes. */
    static method CopyLine(d: Buffer, left: nat) returns (part: string)
      requires BufferOk(d)
      ensures part <= Rest(d) && |part| <= left && FirstEol(Rest(d)) >= |part|
      ensures |part| < |Rest(d)| && |part| < left ==> FirstEol(Rest(d)) == |part|
    {
      var end := if |d.data| < d.start + left then |d.data| else d.start + left;
      var start := d.start;
      part := "";
      while start < end && !IsEol(d.data[start])
        invariant d.start <= start <= end && part == d.data[d.start..start]
        invariant forall i :: d.start <= i < start ==> !IsEol(d.data[i])
      {
        part := part + [d.data[start]];
        start := start + 1;
      }
    }

    /** dbuf_getmsg for a caller with room for `max` bytes. */
    method GetMsg(max: nat) returns (msg: Option<string>)
      requires Valid()
      modifies this
      ensures Valid() && (msg, Contents()) == GetMsgIs(old(Contents()), max)
      ensures var was := Lines(old(Contents()));
        && msg == (if was != [] && |was[0]| < max then Some(was[0]) else None)
        && Lines(Contents()) == if msg.Some? then was[1..] else was
    {
      hide Flat, FirstEol, DropEols, IsEol, Lines;
      GetMsgLines(Contents(), max);
      var n := Flush();
      NoBuffers(bufs);
      if n == 0 { return None; }
      ghost var s := Contents();
      var left := if max > length then length else max;
      var copied, db, buf := 0, 0, "";
      StartOf(bufs);
      while left > 0
        invariant Valid() && Contents() == s && 0 <= copied && copied + left == (if max > |s| then |s| else max)
        invariant 0 <= db < |bufs| && |buf| == copied
        invariant (left > 0 ==> Flat(bufs[..db]) == buf) && FirstEol(s) >= copied
        decreases |bufs| - db
      {
        FlatSplit(bufs, db);
        var part := CopyLine(bufs[db], left);
        LineSoFar(s, buf, Rest(bufs[db]), Flat(bufs[db + 1..]), part, left);
        buf := buf + part;
        var count := |part|;
        if count < left && bufs[db].start + count < |bufs[db].data| {
          copied := copied + count;
          Delete(copied);
          n := Flush();
          return Some(buf);
        }
        copied := copied + count;
        left := left - count;
        db := db + 1;
        if db == |bufs| {
          LastBuffer(bufs);
          return None;
        }
      }
      return None;
    }

    /** Any interleaving of puts and reads, each read with its own room: what was returned,
        followed by the lines still buffered, is the lines of all that was put. */
    method Run(ops: seq<Op>) returns (msgs: seq<string>)
      requires Valid() && Contents() == ""
      modifies this
      ensures Valid() && Lines(AllPut(ops)) == msgs + Lines(Contents())
    {
      hide Flat, Lines;
      msgs := [];
      ghost var done := "";
      LinesOfEols("");
      for i := 0 to |ops|
        invariant Valid() && Framed(AllPut(ops[..i]), done, Contents(), msgs)
      {
        assert ops[..i + 1][..i] == ops[..i];
        match ops[i] {
          case Send(bytes) =>
            FramedPut(AllPut(ops[..i]), done, Contents(), msgs, bytes);
            Put(bytes);
          case Fetch(max) =>
            done := FramedGet(AllPut(ops[..i]), done, Contents(), msgs, max);
            var m := GetMsg(max);
            if m.Some? { msgs := msgs + [m.value]; }
        }
      }
      assert ops[..|ops|] == ops;
      FramedLines(AllPut(ops), done, Contents(), msgs);
    }
  }

  datatype Op = Send(bytes: string) | Fetch(max: nat)

  function AllPut(ops: seq<Op>): string {
    if ops == [] then ""
    else AllPut(ops[..|ops| - 1]) + (if ops[|ops| - 1].Send? then ops[|ops| - 1].bytes else "")
  }

  // ----- helpers for the methods -----

  lemma NoBuffers(bs: seq<Buffer>)
    requires forall i :: 0 <= i < |bs| ==> BufferOk(bs[i])
    ensures Flat(bs) == "" <==> bs == []
    ensures bs != [] ==> Flat(bs)[0] == bs[0].data[bs[0].start]
    ensures bs != [] && !IsEol(Flat(bs)[0]) ==> DropEols(Flat(bs)) == Flat(bs)
  {
  }

  /** The chain with `more` copied behind the bytes of buffer `d`, the last one. */
  function FilledWith(bs: seq<Buffer>, h: nat, d: Buffer, more: string): seq<Buffer>
    requires h <= |bs|
  {
    bs[..h] + [d.(data := d.data + more)]
  }

  lemma Fill(bs: seq<Buffer>, h: nat, d: Buffer, more: string)
    requires forall i :: 0 <= i < |bs| ==> BufferOk(bs[i])
    requires if h == |bs| then d == Buffer(0, "") else h == |bs| - 1 && d == bs[h]
    requires more != "" && |d.data| + |more| <= DBUF_SIZE
    ensures var bs' := FilledWith(bs, h, d, more);
      |bs'| == h + 1 && (forall i :: 0 <= i < |bs'| ==> BufferOk(bs'[i])) && Flat(bs') == Flat(bs) + more
  {
    var d' := d.(data := d.data + more);
    hide Flat;
    FlatConcat(bs[..h], [d']);
    FlatOne(d');
    assert Rest(d') == Rest(d) + more;
    if h == |bs| {
      assert bs[..h] == bs;
    } else {
      FlatSplit(bs, h);
      assert bs[h + 1..] == [];
      NoBuffers(bs[h + 1..]);
    }
  }

  /** The chain after `n` bytes of its first buffer are read. */
  function Consumed(bs: seq<Buffer>, n: nat): seq<Buffer>
    requires bs != []
  {
    if bs[0].start + n == |bs[0].data| then bs[1..] else [bs[0].(start := bs[0].start + n)] + bs[1..]
  }

  lemma FlatHead(bs: seq<Buffer>)
    requires bs != [] && forall i :: 0 <= i < |bs| ==> BufferOk(bs[i])
    ensures Flat(bs) == Rest(bs[0]) + Flat(bs[1..])
  {
  }

  lemma ConsumedOk(bs: seq<Buffer>, n: nat)
    requires bs != [] && forall i :: 0 <= i < |bs| ==> BufferOk(bs[i])
    requires 1 <= n <= |bs[0].data| - bs[0].start
    ensures forall i :: 0 <= i < |Consumed(bs, n)| ==> BufferOk(Consumed(bs, n)[i])
  {
  }

  lemma Consume(bs: seq<Buffer>, n: nat)
    requires bs != [] && forall i :: 0 <= i < |bs| ==> BufferOk(bs[i])
    requires 1 <= n <= |bs[0].data| - bs[0].start
    ensures n <= |Flat(bs)| && Flat(bs)[..n] == bs[0].data[bs[0].start..bs[0].start + n]
    ensures forall i :: 0 <= i < |Consumed(bs, n)| ==> BufferOk(Consumed(bs, n)[i])
    ensures Flat(Consumed(bs, n)) == Flat(bs)[n..]
  {
    hide Flat, BufferOk;
    var c, b := Consumed(bs, n), bs[0];
    ConsumedOk(bs, n);
    FlatHead(bs);
    assert BufferOk(b);
    TakeBytes(b, n, Flat(bs[1..]));
    if b.start + n < |b.data| {
      assert c[1..] == bs[1..];
      FlatHead(c);
    }
  }

  lemma TakeBytes(b: Buffer, n: nat, f: string)
    requires BufferOk(b) && 1 <= n <= |b.data| - b.start
    ensures b.start <= |b.data| && (Rest(b) + f)[..n] == b.data[b.start..b.start + n]
    ensures b.start + n < |b.data| ==> (Rest(b) + f)[n..] == Rest(b.(start := b.start + n)) + f
    ensures b.start + n == |b.data| ==> (Rest(b) + f)[n..] == f
  {
    assert b.start + n < |b.data| ==> Rest(b.(start := b.start + n)) == Rest(b)[n..];
  }

  lemma MovedMore(was: string, moved: string, c: string, n: nat)
    requires was == moved + c && n <= |c|
    ensures was == moved + c[..n] + c[n..]
  {
  }

  lemma DropTwice(s: string, i: nat, n: nat)
    requires i + n <= |s|
    ensures s[i..][n..] == s[i + n..]
  {
  }

  lemma DropOne(s: string)
    requires s != "" && IsEol(s[0])
    ensures DropEols(s) == DropEols(s[1..])
  {
  }

  lemma StartOf(bs: seq<Buffer>)
    requires forall i :: 0 <= i < |bs| ==> BufferOk(bs[i])
    ensures Flat(bs[..0]) == "" == Flat(bs)[..0]
  {
  }

  lemma EolAfter(a: string, d: string, c: string)
    requires FirstEol(a) == |a|
    ensures FirstEol(a + d + c) >= |a| + FirstEol(d)
    ensures FirstEol(d) < |d| ==> FirstEol(a + d + c) == |a| + FirstEol(d)
  {
    var s, k := a + d + c, FirstEol(d);
    assert forall i :: 0 <= i < |a| ==> !IsEol(a[i]);
    forall i | 0 <= i < |a| + k ensures !IsEol(s[i]) { assert s[i] == if i < |a| then a[i] else d[i - |a|]; }
    if k < |d| {
      assert s[|a| + k] == d[k];
      FirstEolAt(s, |a| + k);
    }
  }

  lemma PrefixOf(a: string, d: string, c: string, part: string)
    requires part <= d
    ensures (a + d + c)[..|a| + |part|] == a + part
  {
  }

  /** Where the search for a terminator stands after one more buffer. */
  lemma LineSoFar(s: string, a: string, d: string, c: string, part: string, left: nat)
    requires s == a + d + c && FirstEol(s) >= |a| && part <= d && FirstEol(d) >= |part| && |part| <= left
    requires |part| < |d| && |part| < left ==> FirstEol(d) == |part|
    ensures FirstEol(s) >= |a| + |part|
    ensures |part| < |d| && |part| < left ==> FirstEol(s) == |a| + |part| && s[..|a| + |part|] == a + part
    ensures |part| == |d| ==> part == d
  {
    hide FirstEol;
    forall i | 0 <= i < |a| ensures !IsEol(a[i]) { assert a[i] == s[i]; }
    NoEolIn(a);
    EolAfter(a, d, c);
    PrefixOf(a, d, c, part);
  }

  lemma LastBuffer(bs: seq<Buffer>)
    requires forall i :: 0 <= i < |bs| ==> BufferOk(bs[i])
    ensures bs[..|bs|] == bs
  {
  }
}
