/** The channel burst: printing a channel as SJOIN lines and reading it back, and two
    networks that exchange bursts. */
module SjoinBurst {
  import opened Text
  import opened Channels
  import opened ChannelViews
  import opened SjoinLines
  import opened SjoinAgreement
  import opened SjoinLengths
  import opened SjoinNetwork

  // ----- the printed names -----

  /** No nickname twice, and each one writable in a name list. */
  predicate MembersOk(ms: seq<Member>) {
    && (forall i :: 0 <= i < |ms| ==> NickOk(ms[i].nick))
    && (forall i, j :: 0 <= i < j < |ms| ==> ms[i].nick != ms[j].nick)
  }

  /** Each member is printed exactly once, and an operator first if there is one. */
  lemma BurstOrderIs(ms: seq<Member>)
    ensures multiset(BurstOrder(ms)) == multiset(ms)
    ensures (exists m :: m in ms && m.op) ==> BurstOrder(ms)[0].op
    ensures ms != [] ==> BurstOrder(ms) != []
  {
    var k := FirstOp(ms);
    if k < |ms| {
      assert ms == ms[..k] + [ms[k]] + ms[k + 1..];
    }
  }

  lemma OrderOk(ms: seq<Member>)
    requires MembersOk(ms)
    ensures MembersOk(BurstOrder(ms))
    ensures forall m :: m in ms <==> m in BurstOrder(ms)
  {
    hide BurstOrder, FirstOp, NickOk;
    BurstOrderIs(ms);
    var o := BurstOrder(ms);
    forall m ensures m in ms <==> m in o {
      assert m in multiset(ms) <==> m in multiset(o);
    }
    assert |o| == |multiset(o)| == |multiset(ms)| == |ms|;
    forall i | 0 <= i < |ms| ensures PrintIndex(ms, i) < |ms| && o[i] == ms[PrintIndex(ms, i)] { OrderAt(ms, i); }
    forall i, j | 0 <= i < j < |o| ensures o[i].nick != o[j].nick { IndexApart(ms, i, j); }
  }

  lemma OrderAt(ms: seq<Member>, n: nat)
    requires n < |ms|
    ensures |BurstOrder(ms)| == |ms| && PrintIndex(ms, n) < |ms| && BurstOrder(ms)[n] == ms[PrintIndex(ms, n)]
  {
  }

  lemma IndexApart(ms: seq<Member>, i: nat, j: nat)
    requires i < j < |ms|
    ensures PrintIndex(ms, i) != PrintIndex(ms, j)
  {
  }

  lemma MarkedReads(m: Member)
    requires NickOk(m.nick)
    ensures Word(Marked(m)) && Bare(Marked(m)) == m.nick
    ensures MarksOp(Marked(m)) == m.op && MarksVoice(Marked(m)) == m.voice
  {
    var n := m.nick;
    NickIsBare(n);
    assert n[0] in n;
    if |n| > 1 { assert n[1] in n; }
    if m.op && m.voice {
      assert Marked(m)[1..] == "+" + n && Marked(m)[1..][1..] == n;
    } else if m.op || m.voice {
      assert Marked(m)[1..] == n;
    } else {
      assert Marked(m) == n;
    }
  }

  /** The members as the users of a description. */
  function UserList(ms: seq<Member>): (r: seq<User>)
    ensures |r| == |ms|
    ensures forall i :: 0 <= i < |ms| ==> r[i] == User(ms[i].nick, ms[i].op, ms[i].voice)
  {
    seq(|ms|, i requires 0 <= i < |ms| => User(ms[i].nick, ms[i].op, ms[i].voice))
  }

  /** The receiver knows each of the members. */
  predicate Knows(who: map<string, string>, ms: seq<Member>) {
    forall i :: 0 <= i < |ms| ==> ms[i].nick in who && who[ms[i].nick] == ms[i].nick
  }

  lemma OneMoreUser(toks: seq<string>, t: string, who: map<string, string>, m: Member)
    requires Word(t) && Bare(t) == m.nick && MarksOp(t) == m.op && MarksVoice(t) == m.voice
    requires m.nick in who && who[m.nick] == m.nick && Words(toks)
    ensures UsersOf(toks + [t], who) == UsersOf(toks, who) + [User(m.nick, m.op, m.voice)] && Words(toks + [t])
  {
    hide Bare, MarksOp, MarksVoice, Word;
    assert (toks + [t])[..|toks|] == toks;
  }

  lemma LastMarked(ms: seq<Member>)
    requires ms != []
    ensures var init, m := ms[..|ms| - 1], ms[|ms| - 1];
      && MarkAll(ms) == MarkAll(init) + [Marked(m)]
      && UserList(ms) == UserList(init) + [User(m.nick, m.op, m.voice)]
  {
    hide Marked;
  }

  lemma {:induction false} MarkAllReads(ms: seq<Member>, who: map<string, string>)
    requires MembersOk(ms) && Knows(who, ms)
    ensures UsersOf(MarkAll(ms), who) == UserList(ms) && Words(MarkAll(ms))
  {
    if ms != [] {
      hide Marked, Bare, MarksOp, MarksVoice, NickOk, UsersOf, Words, MarkAll, UserList;
      var init := ms[..|ms| - 1];
      MarkAllReads(init, who);
      MarkedReads(ms[|ms| - 1]);
      LastMarked(ms);
      OneMoreUser(MarkAll(init), Marked(ms[|ms| - 1]), who, ms[|ms| - 1]);
    }
  }

  // ----- packing into lines -----

  function Flat(packs: seq<seq<string>>): seq<string> {
    if packs == [] then [] else packs[0] + Flat(packs[1..])
  }

  lemma {:induction false} PackFlat(cur: seq<string>, used: nat, toks: seq<string>, base: nat)
    ensures var p := Pack(cur, used, toks, base);
      && Flat(p) == cur + toks
      && (forall i :: 0 <= i < |p| ==> p[i] != [])
      && (cur + toks != [] ==> p != [])
    decreases |toks|
  {
    hide Flat;
    if toks == [] {
      FlatPut(cur, []);
      NoPacks();
    } else {
      var u := used + |toks[0]| + 1;
      FirstMoved(cur, toks);
      if u > BUFSIZE - 80 {
        PackFlat([], base, toks[1..], base);
        FlatPut(cur + [toks[0]], Pack([], base, toks[1..], base));
      } else {
        PackFlat(cur + [toks[0]], u, toks[1..], base);
      }
    }
  }

  lemma NoPacks()
    ensures Flat([]) == []
  {
  }

  lemma FlatPut(p: seq<string>, rest: seq<seq<string>>)
    ensures Flat([p] + rest) == p + Flat(rest)
    ensures rest == [] ==> Flat([p]) == p
  {
    assert ([p] + rest)[1..] == rest;
    if rest == [] { assert [p] + rest == [p] && p + [] == p; }
  }

  lemma FirstMoved(cur: seq<string>, toks: seq<string>)
    requires toks != []
    ensures cur + toks == (cur + [toks[0]]) + toks[1..] && [] + toks[1..] == toks[1..]
  {
  }

  lemma {:induction false} UsersOfConcat(a: seq<string>, b: seq<string>, who: map<string, string>)
    ensures UsersOf(a + b, who) == UsersOf(a, who) + UsersOf(b, who)
  {
    if b == [] {
      assert a + b == a;
    } else {
      UsersOfConcat(a, b[..|b| - 1], who);
      assert (a + b)[..|a + b| - 1] == a + b[..|b| - 1];
    }
  }

  // ----- many lines are one description -----

  lemma {:induction false} AddUsersConcat(st: map<string, Status>, a: seq<User>, b: seq<User>, keepNew: bool)
    ensures AddUsers(st, a + b, keepNew) == AddUsers(AddUsers(st, a, keepNew), b, keepNew)
  {
    if b == [] {
      assert a + b == a;
    } else {
      AddUsersConcat(st, a, b[..|b| - 1], keepNew);
      assert (a + b)[..|a + b| - 1] == a + b[..|b| - 1];
    }
  }

  /** A further line with modes "0" only adds its users to the description before it. */
  lemma JoinLines(v: Option<View>, ts: int, m: Mode, a: seq<User>, b: seq<User>)
    requires OldView(v).mode.limit >= 0 && (m.limit >= 0 || v.None?)
    ensures Apply(Some(Apply(v, Desc(ts, m, a))), Desc(ts, NO_MODE, b)) == Apply(v, Desc(ts, m, a + b))
  {
    hide AddUsers, StrLess;
    var w := OldView(v);
    var k := Verdict(v, ts);
    var mid := Apply(v, Desc(ts, m, a));
    var k' := Verdict(Some(mid), ts);
    assert k'.ts == k.ts && k'.keepOurs && k'.keepNew == k.keepNew;
    AddUsersConcat(if k.keepOurs then w.status else Cleared(w.status), a, b, k.keepNew);
    MergeNone(k', mid.mode);
  }

  /** The description that a whole burst amounts to. */
  function WholeDesc(c: Chan): Desc { Desc(c.ts, Carried(c.mode), UserList(BurstOrder(c.members))) }

  function LineDescs(lines: seq<seq<string>>, who: map<string, string>): (r: seq<Desc>)
    requires forall i :: 0 <= i < |lines| ==> Parses(lines[i])
    ensures |r| == |lines| && forall i :: 0 <= i < |r| ==> r[i] == DescOf(lines[i], who)
  {
    seq(|lines|, i requires 0 <= i < |lines| => DescOf(lines[i], who))
  }

  /** A channel that can be printed. */
  predicate Printable(c: Chan) {
    TsOk(c.ts) && -INT_MAX - 1 <= c.mode.limit <= INT_MAX && KeyOk(c.mode.key) && MembersOk(c.members)
  }

  predicate GoodName(name: string) {
    name != "" && name[0] == '#' && |name| <= CHANNELLEN && forall i :: 0 <= i < |name| ==> ChanChar(name[i])
  }

  // ----- the length of the lines -----

  /** What a line of a burst never exceeds. */
  const LONGEST := BUFSIZE - 80 + NICKLEN + 3

  /** The size of a line with these names, the first one or a later one. */
  function PackSize(me: string, c: Chan, name: string, first: bool, toks: seq<string>): nat {
    (if first then FirstBase(me, c, name) else NextBase(me, c, name)) + |Spaced(toks)|
  }

  /** A line is sent once it has passed the limit, so it passes it by one name at most. */
  lemma {:induction false} PackLengths(cur: seq<string>, used: nat, toks: seq<string>, base: nat)
    requires used <= BUFSIZE - 80 && base <= BUFSIZE - 80
    requires forall i :: 0 <= i < |toks| ==> |toks[i]| <= NICKLEN + 2
    ensures var p := Pack(cur, used, toks, base);
      && (p != [] ==> used + |Spaced(p[0])| <= LONGEST + |Spaced(cur)|)
      && forall i :: 0 < i < |p| ==> base + |Spaced(p[i])| <= LONGEST
    decreases |toks|
  {
    if toks != [] {
      hide Spaced;
      var u := used + |toks[0]| + 1;
      SpacedSnoc(cur, toks[0]);
      if u > BUFSIZE - 80 {
        PackLengths([], base, toks[1..], base);
        NoSpaced();
        var rest := Pack([], base, toks[1..], base);
        var p := [cur + [toks[0]]] + rest;
        forall i | 0 < i < |p| ensures base + |Spaced(p[i])| <= LONGEST { assert p[i] == rest[i - 1]; }
      } else {
        PackLengths(cur + [toks[0]], u, toks[1..], base);
      }
    }
  }

  lemma DecimalLength(n: int)
    requires -INT_MAX - 1 <= n <= INT_MAX
    ensures |Decimal(n)| <= 11
  {
    LargePowers();
    if n < 0 { DigitsLength(-n, 10); } else { DigitsLength(n, 10); }
  }

  /** What stands before the names leaves room for them. */
  lemma BaseLengths(me: string, c: Chan, name: string)
    requires Printable(c) && GoodName(name) && |me| <= HOSTLEN
    ensures FirstBase(me, c, name) <= BUFSIZE - 80 && NextBase(me, c, name) <= BUFSIZE - 80
  {
    hide TimeText, Decimal;
    TimeMiddle(c.ts);
    if c.mode.limit != 0 { DecimalLength(c.mode.limit); }
  }

  lemma MarkedLengths(ms: seq<Member>)
    requires MembersOk(ms)
    ensures forall i :: 0 <= i < |ms| ==> |MarkAll(ms)[i]| <= NICKLEN + 2
  {
    forall i | 0 <= i < |ms| ensures |MarkAll(ms)[i]| <= NICKLEN + 2 {
      assert NickOk(ms[i].nick);
      assert MarkAll(ms)[i] == Marked(ms[i]);
    }
  }

  /** No line of a burst is cut off on a link. */
  lemma BurstLengths(me: string, c: Chan, name: string, ms: seq<Member>)
    requires Printable(c) && GoodName(name) && |me| <= HOSTLEN && MembersOk(ms)
    ensures var packs := Pack([], FirstBase(me, c, name), MarkAll(ms), NextBase(me, c, name));
      forall i :: 0 <= i < |packs| ==> PackSize(me, c, name, i == 0, packs[i]) <= LONGEST
  {
    hide FirstBase, NextBase, Pack, MarkAll, Spaced;
    BaseLengths(me, c, name);
    MarkedLengths(ms);
    PackLengths([], FirstBase(me, c, name), MarkAll(ms), NextBase(me, c, name));
    NoSpaced();
  }

  lemma LineIsWhole(me: string, c: Chan, name: string, first: bool, toks: seq<string>)
    requires Printable(c) && PackSize(me, c, name, first, toks) <= LONGEST
    ensures var a := if first then ModeArgs(c.mode) else "";
      BurstLine(me, c, name, first, toks)
      == LineParv(me, c.ts, name, if first then ModeWord(c.mode) else "0", if a != "" then a + " " else "",
                  Spaced(toks))
  {
    hide TimeText, ModeWord, ModeArgs, Spaced, Params;
    var a := if first then ModeArgs(c.mode) else "";
    SizeIs(me, c.ts, name, if first then ModeWord(c.mode) else "0", if a != "" then a + " " else "", Spaced(toks));
    HeaderSize(me, c, name);
  }

  lemma HeaderSize(me: string, c: Chan, name: string)
    requires TsOk(c.ts)
    ensures |Header(me, c, name)| == 10 + |me| + |TimeText(c.ts)| + |name|
  {
    hide TimeText;
  }

  /** Every line of a burst reads as a description with the channel's timestamp; the
      first one carries the modes. */
  lemma {:induction false} BurstLinesRead(me: string, c: Chan, name: string, first: bool, packs: seq<seq<string>>,
                                          who: map<string, string>)
    requires Printable(c) && GoodName(name)
    requires forall i :: 0 <= i < |packs| ==> Words(packs[i])
    requires forall i :: 0 <= i < |packs| ==> PackSize(me, c, name, first && i == 0, packs[i]) <= LONGEST
    ensures var lines := BurstLines(me, c, name, first, packs);
      forall i :: 0 <= i < |lines| ==>
        && Accepts(true, lines[i]) && lines[i][0] == me && lines[i][2] == name
        && lines[i][3] == (if first && i == 0 then ModeWord(c.mode) else "0")
        && LineTokens(lines[i]) == packs[i]
        && DescOf(lines[i], who)
           == Desc(c.ts, if first && i == 0 then Carried(c.mode) else NO_MODE, UsersOf(packs[i], who))
  {
    hide Params, Tokens, ParseModes, ModeWord, ModeArgs, Spaced, UsersOf, Atoi, DescOf, WireParv, Carried, PackSize;
    if packs != [] {
      BurstLinesRead(me, c, name, false, packs[1..], who);
      BurstLineReads(me, c, name, first, packs[0], who);
      var lines, rest := BurstLines(me, c, name, first, packs), BurstLines(me, c, name, false, packs[1..]);
      forall i | 0 <= i < |lines|
        ensures Accepts(true, lines[i]) && lines[i][0] == me && lines[i][2] == name
        ensures lines[i][3] == (if first && i == 0 then ModeWord(c.mode) else "0")
        ensures LineTokens(lines[i]) == packs[i]
        ensures DescOf(lines[i], who)
           == Desc(c.ts, if first && i == 0 then Carried(c.mode) else NO_MODE, UsersOf(packs[i], who))
      {
        if i > 0 { assert lines[i] == rest[i - 1] && packs[i] == packs[1..][i - 1]; }
      }
    }
  }

  lemma BurstLineReads(me: string, c: Chan, name: string, first: bool, toks: seq<string>, who: map<string, string>)
    requires Printable(c) && GoodName(name) && Words(toks) && PackSize(me, c, name, first, toks) <= LONGEST
    ensures var line := BurstLine(me, c, name, first, toks);
      && Accepts(true, line) && line[0] == me && line[2] == name
      && line[3] == (if first then ModeWord(c.mode) else "0")
      && LineTokens(line) == toks
      && DescOf(line, who) == Desc(c.ts, if first then Carried(c.mode) else NO_MODE, UsersOf(toks, who))
  {
    hide Params, Tokens, ParseModes, ModeWord, Spaced, UsersOf, Atoi, LineParv, PackSize, BurstLine;
    NameMiddle(name);
    TokensSpaced(toks);
    LineIsWhole(me, c, name, first, toks);
    var a := ModeArgs(c.mode);
    var args := if first && a != "" then a + " " else "";
    LineHead(me, c.ts, name, if first then ModeWord(c.mode) else "0", args, Spaced(toks));
    if first {
      FullLineReads(me, c.ts, name, c.mode, args, Spaced(toks), who);
      FullTokens(me, c.ts, name, c.mode, args, Spaced(toks));
    } else {
      ZeroLineReads(me, c.ts, name, args, Spaced(toks), who);
      ZeroTokens(me, c.ts, name, Spaced(toks));
    }
  }

  lemma FullTokens(me: string, ts: int, name: string, m: Mode, args: string, names: string)
    requires TsOk(ts) && Middle(name) && KeyOk(m.key)
    requires args == ModeArgs(m) + " " || (args == ModeArgs(m) == "")
    ensures var parv := LineParv(me, ts, name, ModeWord(m), args, names);
      Parses(parv) && LineTokens(parv) == Tokens(names)
  {
    hide Params, Tokens, ModeWord, ModeArgs, TimeText, ArgList;
    WordMiddle(m);
    LineParvIs(me, ts, name, ModeWord(m), m, args, names);
    var parv := LineParv(me, ts, name, ModeWord(m), args, names);
    assert parv[4..4 + |ArgList(m)|] == ArgList(m);
    ParseModeWord(m, parv);
  }

  lemma ZeroTokens(me: string, ts: int, name: string, names: string)
    requires TsOk(ts) && Middle(name)
    ensures var parv := LineParv(me, ts, name, "0", "", names);
      Parses(parv) && LineTokens(parv) == Tokens(names)
  {
    hide TimeText, Params, Tokens;
    NoArgs();
    LineParvIs(me, ts, name, "0", NO_MODE, "", names);
    var parv := LineParv(me, ts, name, "0", "", names);
    assert parv == [me, TimeText(ts), name, "0", names];
    assert "0"[1..] == "";
    assert ParseModes("", parv, 0, NO_MODE) == Some((NO_MODE, 0));
  }

  lemma {:induction false} FlatSnoc(packs: seq<seq<string>>, p: seq<string>)
    ensures Flat(packs + [p]) == Flat(packs) + p
  {
    if packs == [] {
      assert (packs + [p])[1..] == [];
    } else {
      FlatSnoc(packs[1..], p);
      assert (packs + [p])[1..] == packs[1..] + [p];
    }
  }

  /** A run of descriptions, the first with the modes, is one description. */
  lemma {:induction false} ApplyPacks(v: Option<View>, ts: int, m: Mode, packs: seq<seq<string>>, ds: seq<Desc>,
                                      who: map<string, string>)
    requires |ds| == |packs| >= 1
    requires forall i :: 0 <= i < |ds| ==> ds[i] == Desc(ts, if i == 0 then m else NO_MODE, UsersOf(packs[i], who))
    requires OldView(v).mode.limit >= 0 && (m.limit >= 0 || v.None?)
    ensures ApplyAll(v, ds) == Some(Apply(v, Desc(ts, m, UsersOf(Flat(packs), who))))
  {
    hide UsersOf, Apply;
    var n := |ds| - 1;
    FlatSnoc(packs[..n], packs[n]);
    assert packs[..n] + [packs[n]] == packs;
    if n == 0 {
      assert packs[..n] == [] && ds[..n] == [];
      assert Flat(packs) == packs[0];
    } else {
      ApplyPacks(v, ts, m, packs[..n], ds[..n], who);
      var us := UsersOf(Flat(packs[..n]), who);
      UsersOfConcat(Flat(packs[..n]), packs[n], who);
      JoinLines(v, ts, m, us, UsersOf(packs[n], who));
    }
  }

  /** What a receiver makes of a burst: one description, whatever the number of lines. */
  lemma BurstAmounts(me: string, c: Chan, name: string, v: Option<View>, who: map<string, string>)
    requires Printable(c) && GoodName(name) && |me| <= HOSTLEN && c.members != [] && Knows(who, c.members)
    requires OldView(v).mode.limit >= 0 && (c.mode.limit >= 0 || v.None?)
    ensures var lines := Burst(me, c, name);
      && lines != []
      && (forall i :: 0 <= i < |lines| ==> Accepts(true, lines[i]))
      && ApplyAll(v, LineDescs(lines, who)) == Some(Apply(v, WholeDesc(c)))
  {
    hide Pack, BurstLines, MarkAll, BurstOrder, UsersOf, Apply, DescOf, Accepts, NickOk, LineTokens, ModeWord;
    var order := BurstOrder(c.members);
    var base := NextBase(me, c, name);
    var packs := Pack([], FirstBase(me, c, name), MarkAll(order), base);
    BurstOrderIs(c.members);
    OrderOk(c.members);
    KnowsOrder(c.members, who);
    MarkAllReads(order, who);
    PackFlat([], FirstBase(me, c, name), MarkAll(order), base);
    assert [] + MarkAll(order) == MarkAll(order);
    PacksWords(packs, MarkAll(order));
    BurstLengths(me, c, name, order);
    BurstLinesRead(me, c, name, true, packs, who);
    var lines := Burst(me, c, name);
    BurstParses(lines);
    ApplyPacks(v, c.ts, Carried(c.mode), packs, LineDescs(lines, who), who);
  }

  lemma BurstParses(lines: seq<seq<string>>)
    requires forall i :: 0 <= i < |lines| ==> Accepts(true, lines[i])
    ensures forall i :: 0 <= i < |lines| ==> Parses(lines[i])
  {
  }

  lemma KnowsOrder(ms: seq<Member>, who: map<string, string>)
    requires MembersOk(ms) && Knows(who, ms)
    ensures Knows(who, BurstOrder(ms))
  {
    OrderOk(ms);
    var o := BurstOrder(ms);
    forall i | 0 <= i < |o| ensures o[i].nick in who && who[o[i].nick] == o[i].nick {
      assert o[i] in o;
      var j :| 0 <= j < |ms| && ms[j] == o[i];
    }
  }

  lemma {:induction false} PacksWords(packs: seq<seq<string>>, toks: seq<string>)
    requires Flat(packs) == toks && Words(toks)
    ensures forall i :: 0 <= i < |packs| ==> Words(packs[i])
  {
    if packs != [] {
      var rest := Flat(packs[1..]);
      forall i | 0 <= i < |packs[0]| ensures Word(packs[0][i]) { assert packs[0][i] == toks[i]; }
      forall i | 0 <= i < |rest| ensures Word(rest[i]) { assert rest[i] == toks[|packs[0]| + i]; }
      PacksWords(packs[1..], rest);
      forall i | 0 <= i < |packs| ensures Words(packs[i]) {
        if i > 0 { assert packs[i] == packs[1..][i - 1]; }
      }
    }
  }

  // ----- statuses as functions of the nickname -----

  predicate UsersDistinct(us: seq<User>) { forall i, j :: 0 <= i < j < |us| ==> us[i].nick != us[j].nick }

  lemma {:induction false} AddUsersAt(st: map<string, Status>, us: seq<User>, keepNew: bool, n: string)
    requires UsersDistinct(us)
    ensures n in st ==> n in AddUsers(st, us, keepNew) && AddUsers(st, us, keepNew)[n] == st[n]
    ensures n !in st ==> (n in AddUsers(st, us, keepNew) <==> exists i :: 0 <= i < |us| && us[i].nick == n)
    ensures forall i :: 0 <= i < |us| && us[i].nick == n && n !in st ==>
              AddUsers(st, us, keepNew)[n] == Status(keepNew && us[i].op, keepNew && us[i].voice)
  {
    if us != [] {
      var init := us[..|us| - 1];
      AddUsersAt(st, init, keepNew, n);
      if n !in st {
        if i :| 0 <= i < |init| && init[i].nick == n {
          assert us[i].nick == n;
        }
      }
    }
  }

  lemma {:induction false} StatusOfAt(ms: seq<Member>, n: string)
    requires MembersOk(ms)
    ensures n in StatusOf(ms) <==> exists i :: 0 <= i < |ms| && ms[i].nick == n
    ensures forall i :: 0 <= i < |ms| && ms[i].nick == n ==> StatusOf(ms)[n] == Status(ms[i].op, ms[i].voice)
  {
    StatusOfMember(ms, n);
    if ms != [] {
      StatusOfAt(ms[1..], n);
      forall i | 0 <= i < |ms| && ms[i].nick == n ensures StatusOf(ms)[n] == Status(ms[i].op, ms[i].voice) {
        if i > 0 { assert ms[1..][i - 1].nick == n; }
      }
    }
  }

  /** Adding the users of a printed channel: its statuses, on top of `st`. */
  lemma AddWhole(st: map<string, Status>, ms: seq<Member>, keepNew: bool)
    requires MembersOk(ms) && st.Keys !! StatusOf(ms).Keys
    ensures AddUsers(st, UserList(BurstOrder(ms)), keepNew)
         == st + (if keepNew then StatusOf(ms) else Cleared(StatusOf(ms)))
  {
    hide BurstOrder, AddUsers, StatusOf, NickOk;
    OrderOk(ms);
    var o := BurstOrder(ms);
    var us := UserList(o);
    assert UsersDistinct(us);
    var l := AddUsers(st, us, keepNew);
    var r := st + (if keepNew then StatusOf(ms) else Cleared(StatusOf(ms)));
    forall n ensures n in l <==> n in r
             ensures n in l ==> l[n] == r[n]
    {
      AddUsersAt(st, us, keepNew, n);
      StatusOfAt(ms, n);
      if n !in st {
        if i :| 0 <= i < |us| && us[i].nick == n {
          assert o[i] in ms;
          var j :| 0 <= j < |ms| && ms[j] == o[i];
        }
        if j :| 0 <= j < |ms| && ms[j].nick == n {
          assert ms[j] in o;
          var i :| 0 <= i < |o| && o[i] == ms[j];
          assert us[i].nick == n;
        }
      }
    }
  }

  // ----- main results -----

  /** Burst round trip: a server without the channel that is fed the printed lines has the
      same timestamp, modes, limit, key and op and voice map - exactly when the limit is
      not negative. */
  lemma BurstRoundTrip(me: string, c: Chan, name: string, who: map<string, string>)
    requires Printable(c) && GoodName(name) && |me| <= HOSTLEN && c.members != [] && Knows(who, c.members)
    ensures var lines := Burst(me, c, name);
      && (forall i :: 0 <= i < |lines| ==> Accepts(true, lines[i]))
      && (ApplyAll(None, LineDescs(lines, who)) == Some(ViewOf(c)) <==> c.mode.limit >= 0)
  {
    hide Burst, ApplyAll, LineDescs, Accepts, BurstOrder, StatusOf, AddUsers, NickOk;
    BurstAmounts(me, c, name, None, who);
    AddWhole(map[], c.members, true);
    StrMaxLaws(c.mode.key, "", "");
    assert map[] + StatusOf(c.members) == StatusOf(c.members);
    assert Carried(c.mode).flags + {} == Carried(c.mode).flags;
  }

  /** A line from an older side of a channel, with a limit below zero. */
  const LOW_LINE: seq<string> := ["s", "5", "#c", "l", "-5", "@bob"]

  /** Such a limit does arise, and the burst of that channel does not rebuild it. */
  lemma NegativeLimitArises(was: Chan, me: string)
    requires was == Chan(9, NO_MODE, [], false) && |me| <= HOSTLEN
    ensures var who := map["bob" := "bob"];
      && Accepts(true, LOW_LINE)
      && var c := SJoin(Some(was), LOW_LINE, who).chan;
         && c.mode.limit == -5 && Printable(c) && c.members != [] && Knows(who, c.members) && GoodName("#c")
         && var lines := Burst(me, c, "#c");
            && (forall i :: 0 <= i < |lines| ==> Parses(lines[i]))
            && ApplyAll(None, LineDescs(lines, who)) != Some(ViewOf(c))
  {
    var who := map["bob" := "bob"];
    LowChan(was);
    LowPrintable();
    hide Burst, ApplyAll, LineDescs, Accepts, SJoin, Printable, Knows, GoodName, ViewOf;
    BurstRoundTrip(me, LOW_CHAN, "#c", who);
  }

  const LOW_CHAN := Chan(5, Mode({}, -5, ""), [Member("bob", true, false, false)], false)

  lemma LowPrintable()
    ensures Printable(LOW_CHAN) && Knows(map["bob" := "bob"], LOW_CHAN.members) && GoodName("#c")
  {
    assert NickOk("bob");
  }

  lemma LowChan(was: Chan)
    requires was == Chan(9, NO_MODE, [], false)
    ensures Accepts(true, LOW_LINE) && SJoin(Some(was), LOW_LINE, map["bob" := "bob"]).chan == LOW_CHAN
  {
    var who := map["bob" := "bob"];
    LowLineParses();
    assert JoinAll([], ["@bob"], who, true).members == [Member("bob", true, false, false)] by {
      assert ["@bob"][..0] == [];
      assert "@bob"[1..] == "bob";
    }
    assert Stripped([]) == [];
    hide ParseModes, Atoi, Tokens, JoinAll, ForwardRest, WireParv;
  }

  lemma LowLineParses()
    ensures ParseModes("l", LOW_LINE, 0, NO_MODE) == Some((Mode({}, -5, ""), 1))
    ensures Atoi("5") == 5 && Tokens("@bob") == ["@bob"] && Accepts(true, LOW_LINE)
  {
    assert "l"[1..] == "" && "-5"[1..] == "5" && "5"[1..] == "";
    TokensCons("@bob", "");
    assert "@bob" + "" == "@bob";
  }

  /** What two views of a channel with different members become when they are merged. */
  function Merged(v: View, w: View): View {
    if v.ts == 0 || w.ts == 0 || v.ts == w.ts then
      View(if v.ts == w.ts then v.ts else 0,
           Mode(v.mode.flags + w.mode.flags, if v.mode.limit > w.mode.limit then v.mode.limit else w.mode.limit,
                StrMax(v.mode.key, w.mode.key)),
           v.status + w.status)
    else if v.ts < w.ts then View(v.ts, v.mode, v.status + Cleared(w.status))
    else View(w.ts, w.mode, Cleared(v.status) + w.status)
  }

  lemma MergedSymmetric(v: View, w: View)
    requires v.status.Keys !! w.status.Keys
    ensures Merged(v, w) == Merged(w, v)
  {
    StrMaxLaws(v.mode.key, w.mode.key, "");
    assert v.mode.flags + w.mode.flags == w.mode.flags + v.mode.flags;
    assert v.status + w.status == w.status + v.status;
    assert v.status + Cleared(w.status) == Cleared(w.status) + v.status;
    assert Cleared(v.status) + w.status == w.status + Cleared(v.status);
  }

  lemma ApplyWhole(v: View, c: Chan)
    requires MembersOk(c.members) && v.status.Keys !! StatusOf(c.members).Keys
    ensures Apply(Some(v), WholeDesc(c)) == Merged(v, ViewOf(c))
  {
    hide BurstOrder, AddUsers, StatusOf, NickOk, StrLess;
    AddWhole(v.status, c.members, true);
    AddWhole(v.status, c.members, false);
    AddWhole(Cleared(v.status), c.members, true);
    StrMaxLaws(v.mode.key, c.mode.key, "");
    assert v.mode.flags + Carried(c.mode).flags == Carried(c.mode).flags + v.mode.flags;
  }

  /** Two-way burst convergence: two servers with disjoint members that send each other
      their bursts, in any number of lines and for any timestamps, 0 included, end with
      the same view, and it is the merge of the two. */
  lemma BurstsConverge(meA: string, a: Chan, meB: string, b: Chan, name: string,
                       whoA: map<string, string>, whoB: map<string, string>)
    requires Printable(a) && Printable(b) && GoodName(name) && |meA| <= HOSTLEN && |meB| <= HOSTLEN
    requires a.mode.limit >= 0 && b.mode.limit >= 0 && a.members != [] && b.members != []
    requires Knows(whoA, b.members) && Knows(whoB, a.members)
    requires StatusOf(a.members).Keys !! StatusOf(b.members).Keys
    ensures var toB, toA := Burst(meA, a, name), Burst(meB, b, name);
      && (forall i :: 0 <= i < |toB| ==> Accepts(true, toB[i]))
      && (forall i :: 0 <= i < |toA| ==> Accepts(true, toA[i]))
      && ApplyAll(Some(ViewOf(a)), LineDescs(toA, whoA))
         == ApplyAll(Some(ViewOf(b)), LineDescs(toB, whoB))
         == Some(Merged(ViewOf(a), ViewOf(b)))
  {
    hide Burst, ApplyAll, LineDescs, Accepts, BurstOrder, StatusOf, AddUsers, NickOk, Merged, Apply, WholeDesc;
    BurstAmounts(meA, a, name, Some(ViewOf(b)), whoB);
    BurstAmounts(meB, b, name, Some(ViewOf(a)), whoA);
    ApplyWhole(ViewOf(a), b);
    ApplyWhole(ViewOf(b), a);
    MergedSymmetric(ViewOf(a), ViewOf(b));
  }

  // ----- two networks -----

  /** The members of a channel as the users that a network must know. */
  function Roster(ms: seq<Member>): map<string, string> { map m <- ms :: m.nick := m.nick }

  /** A burst line taken as a line to relay. */
  lemma BurstLineBrings(c: Chan, line: seq<string>, first: bool, pack: seq<string>, v: Option<View>,
                        who: map<string, string>)
    requires ChanOk(c) && Printable(c) && NamesOk(who)
    requires Accepts(true, line) && line[3] == (if first then ModeWord(c.mode) else "0")
    requires LineTokens(line) == pack && pack != []
    requires DescOf(line, who) == Desc(c.ts, if first then Carried(c.mode) else NO_MODE, UsersOf(pack, who))
    requires forall i :: 0 <= i < |pack| ==> Bare(pack[i]) in who && Bare(pack[i]) in Roster(c.members)
    requires Limited(v) && |line[0]| + |line[2]| + |Spaced(pack)| <= LONGEST
    ensures LineBrings(v, line, who, Roster(c.members))
  {
    hide ParseModes, Tokens, Atoi, MergeMode, Bare, ModeWord, Roster, LineTokens, Fits, Spaced;
    LosesIs(v, line);
    RoomyFits(v, line, who);
    WordMiddle(c.mode);
    var t := pack[|pack| - 1];
    assert UsersOf(pack, who)[|UsersOf(pack, who)| - 1] == User(who[Bare(t)], MarksOp(t), MarksVoice(t));
  }

  lemma {:induction false} FloodAllAgrees(net: Net, lines: seq<seq<string>>, v: Option<View>,
                                          names: map<string, string>)
    requires AllView(net, v) && NetOk(net, names)
    requires forall i, w :: 0 <= i < |lines| && Limited(w) ==> LineBrings(w, lines[i], net.who, names)
    ensures forall i :: 0 <= i < |lines| ==> Parses(lines[i])
    ensures AllView(FloodAll(net, lines), ApplyAll(v, LineDescs(lines, net.who)))
    ensures NetOk(FloodAll(net, lines), names) && FloodAll(net, lines).who == net.who
  {
    hide AllView, NetOk, DescOf, Apply, Flood, Limited, LineBrings, Parses;
    RootView(net, v, names);
    forall i | 0 <= i < |lines| ensures Parses(lines[i]) { BringsParses(v, lines[i], net.who, names); }
    if lines != [] {
      var n := |lines| - 1;
      FloodAllAgrees(net, lines[..n], v, names);
      var w := ApplyAll(v, LineDescs(lines[..n], net.who));
      assert LineDescs(lines, net.who)[..n] == LineDescs(lines[..n], net.who);
      RootView(FloodAll(net, lines[..n]), w, names);
      assert LineBrings(w, lines[n], net.who, names);
      FloodAgrees(FloodAll(net, lines[..n]), lines[n], w, names);
    }
  }

  lemma BringsParses(v: Option<View>, line: seq<string>, who: map<string, string>, names: map<string, string>)
    requires LineBrings(v, line, who, names)
    ensures Parses(line)
  {
    hide ParseModes;
  }

  lemma RosterKnown(net: Net, ms: seq<Member>)
    requires NetOk(net, Roster(ms))
    ensures Knows(net.who, ms)
  {
    forall i | 0 <= i < |ms| ensures ms[i].nick in net.who && net.who[ms[i].nick] == ms[i].nick {
      assert ms[i] in ms;
      assert ms[i].nick in Roster(ms);
    }
  }

  lemma {:induction false} FlatMember(packs: seq<seq<string>>, i: nat, j: nat)
    requires i < |packs| && j < |packs[i]|
    ensures packs[i][j] in Flat(packs)
  {
    if i > 0 {
      FlatMember(packs[1..], i - 1, j);
    }
  }

  lemma BurstBrings(me: string, c: Chan, name: string, who: map<string, string>)
    requires ChanOk(c) && Printable(c) && GoodName(name) && |me| <= HOSTLEN && Knows(who, c.members) && NamesOk(who)
    ensures var lines := Burst(me, c, name);
      forall i, w :: 0 <= i < |lines| && Limited(w) ==> LineBrings(w, lines[i], who, Roster(c.members))
  {
    hide Pack, BurstLines, BurstOrder, UsersOf, DescOf, NickOk, LineTokens, ModeWord, Roster, Bare, LineBrings, Marked,
         Limited;
    var lines := Burst(me, c, name);
    var order := BurstOrder(c.members);
    var base := NextBase(me, c, name);
    var packs := Pack([], FirstBase(me, c, name), MarkAll(order), base);
    KnowsOrder(c.members, who);
    OrderOk(c.members);
    MarkAllReads(order, who);
    PackFlat([], FirstBase(me, c, name), MarkAll(order), base);
    assert [] + MarkAll(order) == MarkAll(order);
    PacksWords(packs, MarkAll(order));
    BurstLengths(me, c, name, order);
    BurstLinesRead(me, c, name, true, packs, who);
    forall i, w | 0 <= i < |lines| && Limited(w) ensures LineBrings(w, lines[i], who, Roster(c.members)) {
      PackInRoster(c.members, order, packs, i, who);
      PackRoom(me, c, name, i == 0, packs[i]);
      BurstLineBrings(c, lines[i], i == 0, packs[i], w, who);
    }
  }

  lemma PackRoom(me: string, c: Chan, name: string, first: bool, toks: seq<string>)
    requires Printable(c) && PackSize(me, c, name, first, toks) <= LONGEST
    ensures |me| + |name| + |Spaced(toks)| <= LONGEST
  {
    hide TimeText, ModeWord, ModeArgs, Spaced;
    HeaderSize(me, c, name);
  }

  lemma PackInRoster(ms: seq<Member>, order: seq<Member>, packs: seq<seq<string>>, i: nat, who: map<string, string>)
    requires Flat(packs) == MarkAll(order) && i < |packs| && MembersOk(order) && Knows(who, order)
    requires forall m :: m in ms <==> m in order
    ensures forall j :: 0 <= j < |packs[i]| ==> Bare(packs[i][j]) in who && Bare(packs[i][j]) in Roster(ms)
  {
    forall j | 0 <= j < |packs[i]| ensures Bare(packs[i][j]) in who && Bare(packs[i][j]) in Roster(ms) {
      FlatMember(packs, i, j);
      var k :| 0 <= k < |order| && MarkAll(order)[k] == packs[i][j];
      MarkedInRoster(ms, order[k]);
    }
  }

  /** A network takes in the burst of a channel: all its servers agree on the result. */
  lemma NetworkTakesBurst(net: Net, v: Option<View>, me: string, c: Chan, name: string)
    requires AllView(net, v) && NetOk(net, Roster(c.members))
    requires ChanOk(c) && Printable(c) && GoodName(name) && |me| <= HOSTLEN && c.members != []
    ensures AllView(FloodAll(net, Burst(me, c, name)), Some(Apply(v, WholeDesc(c))))
  {
    hide AllView, Apply, DescOf, NickOk, Roster, FloodAll, LineBrings, WholeDesc, ViewOf, Burst, ApplyAll, Accepts;
    RosterKnown(net, c.members);
    RootView(net, v, Roster(c.members));
    BurstAmounts(me, c, name, v, net.who);
    BurstBrings(me, c, name, net.who);
    FloodAllAgrees(net, Burst(me, c, name), v, Roster(c.members));
  }

  lemma MarkedInRoster(ms: seq<Member>, m: Member)
    requires m in ms && NickOk(m.nick)
    ensures Bare(Marked(m)) == m.nick && m.nick in Roster(ms)
  {
    MarkedReads(m);
  }

  lemma RootView(net: Net, v: Option<View>, names: map<string, string>)
    requires AllView(net, v) && NetOk(net, names)
    ensures Limited(v)
  {
  }

  /** Two networks, each in agreement on a channel and with disjoint members, are linked:
      the two servers at the link send each other their bursts and relay what they get.
      Afterwards every server of both networks has the same view. */
  lemma NetworksConverge(a: Net, b: Net, meA: string, meB: string, name: string)
    requires a.chan.Some? && b.chan.Some?
    requires AllView(a, ViewOpt(a.chan)) && AllView(b, ViewOpt(b.chan))
    requires NetOk(a, Roster(b.chan.value.members)) && NetOk(b, Roster(a.chan.value.members))
    requires Printable(a.chan.value) && Printable(b.chan.value) && GoodName(name)
    requires |meA| <= HOSTLEN && |meB| <= HOSTLEN
    requires a.chan.value.members != [] && b.chan.value.members != []
    requires StatusOf(a.chan.value.members).Keys !! StatusOf(b.chan.value.members).Keys
    ensures var end := Some(Merged(ViewOf(a.chan.value), ViewOf(b.chan.value)));
      && AllView(FloodAll(a, Burst(meB, b.chan.value, name)), end)
      && AllView(FloodAll(b, Burst(meA, a.chan.value, name)), end)
  {
    hide AllView, Burst, FloodAll, StatusOf, NickOk, Merged, Apply, WholeDesc, Roster;
    var ca, cb := a.chan.value, b.chan.value;
    NetworkTakesBurst(a, Some(ViewOf(ca)), meB, cb, name);
    NetworkTakesBurst(b, Some(ViewOf(cb)), meA, ca, name);
    ApplyWhole(ViewOf(ca), cb);
    ApplyWhole(ViewOf(cb), ca);
    MergedSymmetric(ViewOf(ca), ViewOf(cb));
  }
}
