/** Servers that agree on a channel still agree after an SJOIN has passed through them:
    over one link, and over a whole tree of servers. */
module SjoinAgreement {
  import opened Text
  import opened Channels
  import opened ChannelViews
  import opened SjoinLines

  /** Nicknames as the nickname rules allow them: no blanks, no '@' or '+', and not too long. */
  predicate NickOk(n: string) { Word(n) && '@' !in n && '+' !in n && |n| <= NICKLEN }

  predicate NamesOk(who: map<string, string>) { forall n <- who :: NickOk(n) }

  /** A limit that is an int and not negative, and a key that can be sent. */
  predicate ModeOk(m: Mode) { 0 <= m.limit <= INT_MAX && KeyOk(m.key) }

  /** A channel as the agreement claims take it: not juped, and with a time that reads back. */
  predicate ChanOk(c: Chan) { !c.juped && TsOk(c.ts) && ModeOk(c.mode) }

  predicate ChanOptOk(c: Option<Chan>) { c.Some? ==> ChanOk(c.value) }

  /** An SJOIN line as the agreement claims take it. */
  predicate LineOk(parv: seq<string>) {
    && Accepts(true, parv)
    && TsOk(Atoi(parv[1]))
    && ModeOk(ParseModes(parv[3], parv, 0, NO_MODE).value.0)
  }

  predicate ZeroModes(parv: seq<string>)
    requires |parv| >= 5
  {
    parv[3] != "" && parv[3][0] == '0'
  }

  /** The view of a good channel. */
  predicate Limited(v: Option<View>) { ModeOk(OldView(v).mode) && TsOk(OldView(v).ts) }

  /** The modes `m` bring nothing that `w` does not have. */
  predicate NothingNew(m: Mode, w: Mode) { m.flags <= w.flags && m.limit <= w.limit && !StrLess(w.key, m.key) }

  /** A mode word that starts with '0' and yet names modes is used here but not sent on. This matters
      when the line's modes are taken: where they replace the channel's, if it names any; where they
      are merged, if the channel lacks one, or has a lower limit or a lesser key. */
  predicate LosesModes(v: Option<View>, parv: seq<string>)
    requires Parses(parv)
  {
    var m := ParseModes(parv[3], parv, 0, NO_MODE).value.0;
    var k := Verdict(v, Atoi(parv[1]));
    ZeroModes(parv) && k.keepNew && if k.keepOurs then !NothingNew(m, OldView(v).mode) else m != NO_MODE
  }

  /** A line without users leaves the channel as it is: a younger one, or one of the same age (or on a
      channel with timestamp 0) that brings no new modes. */
  predicate LeavesAlone(v: Option<View>, ts: int, m: Mode) {
    v.Some? && var w := v.value;
      if w.ts == 0 || ts == w.ts then NothingNew(m, w.mode) else ts != 0 && ts > w.ts
  }

  function LineTokens(parv: seq<string>): seq<string>
    requires Parses(parv)
  {
    Tokens(parv[4 + ParseModes(parv[3], parv, 0, NO_MODE).value.1])
  }

  /** Both servers take the names that the first one accepts for the same users. */
  predicate SameNames(toks: seq<string>, who: map<string, string>, who': map<string, string>) {
    forall i :: 0 <= i < |toks| && Bare(toks[i]) in who ==>
      Bare(toks[i]) in who' && who'[Bare(toks[i])] == who[Bare(toks[i])]
  }

  /** The accepted names are all in `names`. */
  predicate Naming(toks: seq<string>, who: map<string, string>, names: set<string>) {
    forall i :: 0 <= i < |toks| ==> Bare(toks[i]) in who ==> Bare(toks[i]) in names
  }

  // ----- the relayed description -----

  function Plain(us: seq<User>): (r: seq<User>)
    ensures |r| == |us|
    ensures forall i :: 0 <= i < |us| ==> r[i] == User(us[i].nick, false, false)
  {
    seq(|us|, i requires 0 <= i < |us| => User(us[i].nick, false, false))
  }

  /** What a server sends on, as a description. */
  function Relay(v: Option<View>, d: Desc, zero: bool): Desc {
    var k := Verdict(v, d.ts);
    Desc(k.ts,
         if zero || !k.keepNew then NO_MODE else MergeMode(k, d.mode, OldView(v).mode),
         if k.keepNew then d.users else Plain(d.users))
  }

  lemma {:induction false} BareProps(tok: string)
    ensures var s := Bare(tok); s != "" ==> s[0] != '@' && s[0] != '+'
    ensures ' ' !in tok ==> ' ' !in Bare(tok)
  {
    if tok != "" && (tok[0] == '@' || tok[0] == '+') { BareProps(tok[1..]); }
  }

  lemma NickIsBare(n: string)
    requires NickOk(n)
    ensures Bare(n) == n && !MarksOp(n) && !MarksVoice(n)
  {
    assert n[0] in n;
    if |n| > 1 { assert n[1] in n; }
  }

  /** Tokens that can be sent, with bare names out of `names`. */
  predicate Sendable(toks: seq<string>, names: set<string>) {
    Words(toks) && forall i :: 0 <= i < |toks| ==> Bare(toks[i]) in names
  }

  lemma OneSendable(toks: seq<string>, t: string, names: set<string>)
    requires Sendable(toks, names) && Word(t) && Bare(t) in names
    ensures Sendable(toks + [t], names)
  {
    hide Bare, Word;
  }

  /** What is known of a list of names holds for all but the last, and for the last. */
  lemma LastName(toks: seq<string>, who: map<string, string>, who': map<string, string>, names: set<string>)
    requires toks != [] && Words(toks) && NamesOk(who) && SameNames(toks, who, who') && Naming(toks, who, names)
    ensures var init, t := toks[..|toks| - 1], toks[|toks| - 1];
      && toks == init + [t] && Words(init) && SameNames(init, who, who') && Naming(init, who, names) && Word(t)
      && (Bare(t) in who ==> NickOk(Bare(t)) && Word(Bare(t)) && Bare(t) in names
                             && Bare(t) in who' && who'[Bare(t)] == who[Bare(t)])
  {
    hide Bare, MarksOp, MarksVoice;
    assert toks[|toks| - 1] == toks[|toks| - 1];
  }

  lemma JoinLast(ms: seq<Member>, init: seq<string>, t: string, who: map<string, string>, keepNew: bool)
    ensures JoinAll(ms, init + [t], who, keepNew).out
         == JoinAll(ms, init, who, keepNew).out + if Bare(t) in who then [if keepNew then t else Bare(t)] else []
  {
    hide Bare, MarksOp, MarksVoice, IsMember;
    assert (init + [t])[..|init|] == init;
  }

  lemma {:induction false} RelayedNames(ms: seq<Member>, toks: seq<string>, who: map<string, string>,
                                        who': map<string, string>, keepNew: bool, names: set<string>)
    requires Words(toks) && NamesOk(who) && SameNames(toks, who, who') && Naming(toks, who, names)
    ensures var out := JoinAll(ms, toks, who, keepNew).out;
      && Sendable(out, names)
      && UsersOf(out, who') == (if keepNew then UsersOf(toks, who) else Plain(UsersOf(toks, who)))
      && (out == [] <==> UsersOf(toks, who) == [])
  {
    if toks == [] {
      NoUsers(who, who');
    } else {
      hide MarksOp, MarksVoice, NickOk, Bare, UsersOf, Plain, JoinAll, Words, NamesOk, SameNames, Naming, Sendable;
      var init, t := toks[..|toks| - 1], toks[|toks| - 1];
      LastName(toks, who, who', names);
      RelayedNames(ms, init, who, who', keepNew, names);
      var s, out := Bare(t), JoinAll(ms, init, who, keepNew).out;
      JoinLast(ms, init, t, who, keepNew);
      UsersOne(init, t, who);
      if s in who {
        NickIsBare(s);
        var o := if keepNew then t else s;
        OneSendable(out, o, names);
        UsersOne(out, o, who');
        PlainOne(UsersOf(init, who), User(who[s], MarksOp(t), MarksVoice(t)));
      } else {
        assert out + [] == out && UsersOf(init, who) + [] == UsersOf(init, who);
      }
    }
  }

  lemma NoUsers(who: map<string, string>, who': map<string, string>)
    ensures UsersOf([], who) == UsersOf([], who') == [] == Plain([])
  {
  }

  lemma UsersOne(toks: seq<string>, t: string, who: map<string, string>)
    ensures UsersOf(toks + [t], who)
         == UsersOf(toks, who) + if Bare(t) in who then [User(who[Bare(t)], MarksOp(t), MarksVoice(t))] else []
  {
    assert (toks + [t])[..|toks|] == toks;
  }

  lemma PlainOne(us: seq<User>, u: User)
    ensures Plain(us + [u]) == Plain(us) + [User(u.nick, false, false)]
  {
  }

  // ----- the text of the relayed line -----

  /** The tokens that are sent on. */
  function Accepted(toks: seq<string>, who: map<string, string>, keepNew: bool): seq<string> {
    JoinAll([], toks, who, keepNew).out
  }

  lemma {:induction false} OutSame(ms: seq<Member>, toks: seq<string>, who: map<string, string>, keepNew: bool)
    ensures JoinAll(ms, toks, who, keepNew).out == Accepted(toks, who, keepNew)
  {
    if toks != [] {
      hide JoinAll;
      var init := toks[..|toks| - 1];
      OutSame(ms, init, who, keepNew);
      assert toks == init + [toks[|toks| - 1]];
      JoinLast(ms, init, toks[|toks| - 1], who, keepNew);
      JoinLast([], init, toks[|toks| - 1], who, keepNew);
    }
  }

  function TheirMode(parv: seq<string>): Mode
    requires Parses(parv)
  {
    ParseModes(parv[3], parv, 0, NO_MODE).value.0
  }

  function Taken(v: Option<View>, parv: seq<string>): Decision
    requires Parses(parv)
  {
    Verdict(v, Atoi(parv[1]))
  }

  /** Whether the merged modes are sent on, and what they are. */
  predicate RelaysModes(v: Option<View>, parv: seq<string>)
    requires Parses(parv)
  {
    !ZeroModes(parv) && Taken(v, parv).keepNew
  }

  function RelayMode(v: Option<View>, parv: seq<string>): Mode
    requires Parses(parv)
  {
    MergeMode(Taken(v, parv), TheirMode(parv), OldView(v).mode)
  }

  function RelayWord(v: Option<View>, parv: seq<string>): string
    requires Parses(parv)
  {
    if RelaysModes(v, parv) then ModeWord(RelayMode(v, parv)) else "0"
  }

  function RelayArgs(v: Option<View>, parv: seq<string>): string
    requires Parses(parv)
  {
    (if RelaysModes(v, parv) then ModeArgs(RelayMode(v, parv)) else "") + " "
  }

  function SentNames(v: Option<View>, parv: seq<string>, who: map<string, string>): string
    requires Parses(parv)
  {
    ChopBlank(Spaced(Accepted(LineTokens(parv), who, Taken(v, parv).keepNew)))
  }

  /** The text that a server with view `v` sends on, after its command. */
  function RelayRest(v: Option<View>, parv: seq<string>, who: map<string, string>): string
    requires Parses(parv)
  {
    LineRest(Taken(v, parv).ts, parv[2], RelayWord(v, parv), RelayArgs(v, parv), SentNames(v, parv, who))
  }

  /** The text goes over the link as a whole. It then also fits into sjbuf with its NUL. */
  predicate Fits(v: Option<View>, parv: seq<string>, who: map<string, string>)
    requires Parses(parv)
  {
    LineSize(parv[0], RelayRest(v, parv, who)) <= WIRE
  }

  /** MODE_LIMIT is not printed. */
  lemma WordCarried(m: Mode)
    ensures ModeWord(m) == ModeWord(Carried(m)) && ModeArgs(m) == ModeArgs(Carried(m))
  {
    var k := Carried(m);
    assert forall f: Flag, c: char :: f != Limit ==> Letter(m, f, c) == Letter(k, f, c);
    hide Letter;
  }

  /** What m_sjoin sends on, said of the view. */
  lemma RestIs(was: Option<Chan>, parv: seq<string>, who: map<string, string>)
    requires Parses(parv) && (was.Some? ==> !was.value.juped)
    ensures var r := SJoin(was, parv, who);
      && r.size == LineSize(parv[0], RelayRest(ViewOpt(was), parv, who))
      && r.fwd == if Accepted(LineTokens(parv), who, Taken(ViewOpt(was), parv).keepNew) == [] then None
                  else Some(WireParv(parv[0], RelayRest(ViewOpt(was), parv, who)))
  {
    hide ParseModes, Tokens, Atoi, JoinAll, StatusOf, LineRest, WireParv, LineSize, ModeWord, ModeArgs, StrLess,
        Stripped,
         Accepted, ChopBlank, Spaced;
    var c := OldChan(was);
    var d := Decide(was, Atoi(parv[1]));
    assert d == Taken(ViewOpt(was), parv);
    OutSame(if d.keepOurs then c.members else Stripped(c.members), LineTokens(parv), who, d.keepNew);
    var mode := MergeMode(d, TheirMode(parv), c.mode);
    ParsedFlags(parv[3], parv, 0, NO_MODE);
    assert Carried(mode) == Carried(RelayMode(ViewOpt(was), parv));
    WordCarried(mode);
    WordCarried(RelayMode(ViewOpt(was), parv));
  }

  lemma WireWhole(sender: string, rest: string)
    requires LineSize(sender, rest) <= WIRE
    ensures WireParv(sender, rest) == [sender] + Params(rest)
  {
  }

  /** How many characters of a list of names get through, when the rest of the line does. */
  function Kept(size: nat, names: string): nat
    requires size - |names| <= WIRE
  {
    if size <= WIRE then |names| else |names| - (size - WIRE)
  }

  /** A line that is too long loses the end of its names. */
  lemma WireCut(sender: string, ts: int, name: string, word: string, args: string, names: string)
    requires LineSize(sender, LineRest(ts, name, word, args, "")) <= WIRE
    ensures var size := LineSize(sender, LineRest(ts, name, word, args, names));
      && size - |names| <= WIRE && Kept(size, names) <= |names| && (size > WIRE ==> Kept(size, names) < |names|)
      && WireParv(sender, LineRest(ts, name, word, args, names))
         == LineParv(sender, ts, name, word, args, names[..Kept(size, names)])
  {
    hide TimeText, Params;
    var time := TimeText(ts % ULONG_RANGE);
    var head := time + " " + (name + " " + (word + " " + (args + ":")));
    HeadNames(time, name, word, args, names);
    HeadNames(time, name, word, args, "");
    var size := LineSize(sender, head + names);
    var n := Kept(size, names);
    HeadNames(time, name, word, args, names[..n]);
    if size > WIRE {
      assert (head + names)[..WIRE - LineSize(sender, "")] == head + names[..n];
    } else {
      assert names[..n] == names;
    }
  }

  lemma HeadNames(time: string, name: string, word: string, args: string, names: string)
    ensures time + " " + (name + " " + (word + " " + (args + (":" + names))))
         == (time + " " + (name + " " + (word + " " + (args + ":")))) + names
  {
    assert args + (":" + names) == (args + ":") + names;
    assert word + " " + ((args + ":") + names) == (word + " " + (args + ":")) + names;
    assert name + " " + ((word + " " + (args + ":")) + names) == (name + " " + (word + " " + (args + ":"))) + names;
  }

  /** The relayed line with `names` for its list. */
  function RelayParv(v: Option<View>, parv: seq<string>, names: string): seq<string>
    requires Parses(parv)
  {
    LineParv(parv[0], Taken(v, parv).ts, parv[2], RelayWord(v, parv), RelayArgs(v, parv), names)
  }

  /** A relayed line is again a good line, with the modes of the relayed description. */
  lemma RelayLine(v: Option<View>, parv: seq<string>, names: string, who: map<string, string>)
    requires Limited(v) && LineOk(parv)
    ensures var line := RelayParv(v, parv, names);
      && LineOk(line) && LineTokens(line) == Tokens(names) && line[0] == parv[0] && line[2] == parv[2]
      && (ZeroModes(line) <==> !RelaysModes(v, parv)) && Atoi(line[1]) == Taken(v, parv).ts
      && TheirMode(line) == (if RelaysModes(v, parv) then Carried(RelayMode(v, parv)) else NO_MODE)
      && DescOf(line, who) == Desc(Taken(v, parv).ts, TheirMode(line), UsersOf(Tokens(names), who))
  {
    hide ParseModes, Tokens, Atoi, UsersOf, LineParv, StrLess, ModeWord, ModeArgs;
    var k, m := Taken(v, parv), RelayMode(v, parv);
    NameMiddle(parv[2]);
    assert ModeOk(m) && TsOk(k.ts);
    LineHead(parv[0], k.ts, parv[2], RelayWord(v, parv), RelayArgs(v, parv), names);
    if RelaysModes(v, parv) {
      FullLineReads(parv[0], k.ts, parv[2], m, ModeArgs(m) + " ", names, who);
      WordMiddle(m);
      FullLineTokens(parv[0], k.ts, parv[2], m, names);
    } else {
      assert "" + " " == " ";
      ZeroLineReads(parv[0], k.ts, parv[2], " ", names, who);
      ZeroLineTokens(parv[0], k.ts, parv[2], names);
    }
  }

  lemma LineHead(sender: string, ts: int, name: string, word: string, args: string, names: string)
    ensures LineParv(sender, ts, name, word, args, names)[0] == sender
  {
    hide Params, LineRest;
  }

  /** The line sent on, if it goes over the link as a whole, is again a good line, and it reads as the
      relayed description. */
  lemma RelayReads(was: Option<Chan>, parv: seq<string>, who: map<string, string>, who': map<string, string>,
                   names: set<string>)
    requires ChanOptOk(was) && LineOk(parv) && NamesOk(who) && Fits(ViewOpt(was), parv, who)
    requires SameNames(LineTokens(parv), who, who') && Naming(LineTokens(parv), who, names)
    requires DescOf(parv, who).users != []
    ensures var fwd := SJoin(was, parv, who).fwd;
      && fwd.Some? && LineOk(fwd.value)
      && fwd.value == RelayParv(ViewOpt(was), parv, SentNames(ViewOpt(was), parv, who))
      && (ZeroModes(fwd.value) ==> DescOf(fwd.value, who').mode == NO_MODE)
      && DescOf(fwd.value, who') == Relay(ViewOpt(was), DescOf(parv, who), ZeroModes(parv))
      && LineTokens(fwd.value) == Accepted(LineTokens(parv), who, Taken(ViewOpt(was), parv).keepNew)
      && Sendable(LineTokens(fwd.value), names)
  {
    hide ParseModes, Tokens, Atoi, JoinAll, UsersOf, StatusOf, LineRest, LineSize, Spaced, Bare, NickOk, StrLess,
        ModeWord,
        ModeArgs, RelayWord, RelayArgs, ChopBlank, MergeMode, Words, ModeOk;
    var v, k := ViewOpt(was), Taken(ViewOpt(was), parv);
    GoodView(was);
    RestIs(was, parv, who);
    var toks := LineTokens(parv);
    var out := Accepted(toks, who, k.keepNew);
    RelayedNames([], toks, who, who', k.keepNew, names);
    SendableWords(out, names);
    TokensChop(out);
    WireWhole(parv[0], RelayRest(v, parv, who));
    RelayLine(v, parv, SentNames(v, parv, who), who');
    CarriedView(was, parv);
  }

  lemma SendableWords(toks: seq<string>, names: set<string>)
    requires Sendable(toks, names)
    ensures Words(toks)
  {
  }

  lemma GoodView(was: Option<Chan>)
    requires ChanOptOk(was)
    ensures Limited(ViewOpt(was))
  {
  }

  /** A view has no MODE_LIMIT bit, and neither has a line. */
  lemma CarriedView(was: Option<Chan>, parv: seq<string>)
    requires Parses(parv)
    ensures Carried(RelayMode(ViewOpt(was), parv)) == RelayMode(ViewOpt(was), parv)
  {
    hide ParseModes, Tokens, Atoi, StrLess;
    ParsedFlags(parv[3], parv, 0, NO_MODE);
  }

  lemma NameMiddle(name: string)
    requires name != "" && name[0] == '#' && forall i :: 0 <= i < |name| ==> ChanChar(name[i])
    ensures Middle(name)
  {
  }

  lemma FullLineTokens(sender: string, ts: int, name: string, m: Mode, names: string)
    requires TsOk(ts) && Middle(name) && KeyOk(m.key)
    ensures var parv := LineParv(sender, ts, name, ModeWord(m), ModeArgs(m) + " ", names);
      && Parses(parv) && Atoi(parv[1]) == ts && LineTokens(parv) == Tokens(names)
      && ParseModes(parv[3], parv, 0, NO_MODE).value.0 == Carried(m)
  {
    hide Params, Tokens, ModeWord, ModeArgs, TimeText, Atoi, ArgList;
    WordMiddle(m);
    FullLineReads(sender, ts, name, m, ModeArgs(m) + " ", names, map[]);
    LineParvIs(sender, ts, name, ModeWord(m), m, ModeArgs(m) + " ", names);
    var parv := LineParv(sender, ts, name, ModeWord(m), ModeArgs(m) + " ", names);
    assert parv[4..4 + |ArgList(m)|] == ArgList(m);
    ParseModeWord(m, parv);
  }

  lemma ZeroLineTokens(sender: string, ts: int, name: string, names: string)
    requires TsOk(ts) && Middle(name)
    ensures var parv := LineParv(sender, ts, name, "0", " ", names);
      && Parses(parv) && Atoi(parv[1]) == ts && LineTokens(parv) == Tokens(names)
      && ParseModes(parv[3], parv, 0, NO_MODE).value.0 == NO_MODE
  {
    ZeroLineReads(sender, ts, name, " ", names, map[]);
    LineParvIs(sender, ts, name, "0", NO_MODE, " ", names);
    var parv := LineParv(sender, ts, name, "0", " ", names);
    NoArgs();
    assert parv == [sender, TimeText(ts), name, "0", names];
    assert "0"[1..] == "";
    assert ParseModes("", parv, 0, NO_MODE) == Some((NO_MODE, 0));
    TimeReads(ts);
  }

  // ----- one hop -----

  lemma {:induction false} AddPlain(st: map<string, Status>, us: seq<User>)
    ensures AddUsers(st, Plain(us), true) == AddUsers(st, us, false)
  {
    if us != [] {
      AddPlain(st, us[..|us| - 1]);
      assert Plain(us)[..|us| - 1] == Plain(us[..|us| - 1]);
    }
  }

  /** Merging what was merged already changes nothing. */
  lemma MergeTwice(k: Decision, a: Mode, b: Mode)
    requires k.keepNew && k.keepOurs
    ensures MergeMode(k, MergeMode(k, a, b), b) == MergeMode(k, a, b)
  {
    StrMaxLaws(a.key, b.key, b.key);
    assert a.flags + b.flags + b.flags == a.flags + b.flags;
  }

  /** Merging no modes at all keeps modes whose limit is not negative. */
  lemma MergeNone(k: Decision, b: Mode)
    requires b.limit >= 0 && k.keepOurs
    ensures MergeMode(k, NO_MODE, b) == b
  {
    StrMaxLaws(b.key, "", "");
    assert {} + b.flags == b.flags;
  }

  /** Merging brings nothing new exactly when every part is there already. */
  lemma MergeNothing(k: Decision, m: Mode, w: Mode)
    requires k.keepNew && k.keepOurs
    ensures MergeMode(k, m, w) == w <==> NothingNew(m, w)
  {
    StrTotal(m.key, w.key);
    assert m.flags + w.flags == w.flags <==> m.flags <= w.flags;
  }

  /** Modes are lost exactly when the second server would have needed them. */
  lemma LosesIs(v: Option<View>, parv: seq<string>)
    requires Parses(parv) && OldView(v).mode.limit >= 0
    ensures var m := ParseModes(parv[3], parv, 0, NO_MODE).value.0;
      var k := Verdict(v, Atoi(parv[1]));
      LosesModes(v, parv)
      <==> ZeroModes(parv) && MergeMode(k, m, OldView(v).mode) != MergeMode(k, NO_MODE, OldView(v).mode)
  {
    hide ParseModes, Atoi, StrLess;
    var m := ParseModes(parv[3], parv, 0, NO_MODE).value.0;
    var k := Verdict(v, Atoi(parv[1]));
    if k.keepNew && k.keepOurs {
      MergeNothing(k, m, OldView(v).mode);
      MergeNone(k, OldView(v).mode);
    }
  }

  /** A line without users, at the server itself. */
  lemma AloneIs(v: Option<View>, d: Desc)
    requires d.users == []
    ensures Some(Apply(v, d)) == v <==> LeavesAlone(v, d.ts, d.mode)
  {
    hide StrLess, NothingNew;
    var k := Verdict(v, d.ts);
    if v.Some? && k.keepNew && k.keepOurs { MergeNothing(k, d.mode, v.value.mode); }
  }

  /** A second server in the same state ends with the same timestamp and the same op and
      voice map; its modes are the same exactly when none were lost on the way. */
  lemma RelayAgrees(v: Option<View>, d: Desc, zero: bool)
    requires OldView(v).mode.limit >= 0 && d.mode.limit >= 0
    ensures var k := Verdict(v, d.ts);
      var lost := zero && MergeMode(k, d.mode, OldView(v).mode) != MergeMode(k, NO_MODE, OldView(v).mode);
      && Apply(v, Relay(v, d, zero)).ts == Apply(v, d).ts
      && Apply(v, Relay(v, d, zero)).status == Apply(v, d).status
      && (Apply(v, Relay(v, d, zero)) == Apply(v, d) <==> !lost)
  {
    hide AddUsers, StrLess;
    var k := Verdict(v, d.ts);
    var w := OldView(v).mode;
    AddPlain(OldView(v).status, d.users);
    MergeNone(Decision(0, true, true), w);
    if k.keepNew && k.keepOurs { MergeTwice(k, d.mode, w); }
    var r := Relay(v, d, zero);
    var k' := Verdict(v, r.ts);
    assert k.keepNew ==> k' == k;
    assert !k.keepNew ==> k' == Decision(k.ts, true, true);
    assert MergeMode(k', r.mode, w) == if zero then MergeMode(k, NO_MODE, w) else MergeMode(k, d.mode, w);
  }

  /** Where no user of a line is accepted, nothing is sent on. */
  lemma SilentIs(was: Option<Chan>, parv: seq<string>, who: map<string, string>)
    requires ChanOptOk(was) && LineOk(parv) && NamesOk(who)
    ensures SJoin(was, parv, who).fwd.None? <==> DescOf(parv, who).users == []
  {
    hide ParseModes, Tokens, Atoi, JoinAll, UsersOf, RelayRest, MergeMode, NickOk, Bare, SJoin, WireParv;
    RestIs(was, parv, who);
    RelayedNames([], LineTokens(parv), who, who, Taken(ViewOpt(was), parv).keepNew, who.Keys);
  }

  /** The channel at the next server: as it was, if nothing was sent. */
  function NextChan(b: Option<Chan>, fwd: Option<seq<string>>, who: map<string, string>): Option<Chan> {
    if fwd.Some? && Accepts(true, fwd.value) then Some(SJoin(b, fwd.value, who).chan) else b
  }

  /** One hop: servers A and B that agree on a channel agree again after A has processed
      an SJOIN that brings at least one user, and B the line A sent on as a whole - exactly when the
      line lost no modes. */
  lemma HopKeepsAgreement(a: Option<Chan>, b: Option<Chan>, parv: seq<string>,
                          who: map<string, string>, who': map<string, string>)
    requires ViewOpt(a) == ViewOpt(b) && ChanOptOk(a) && ChanOptOk(b)
    requires LineOk(parv) && NamesOk(who) && SameNames(LineTokens(parv), who, who')
    requires DescOf(parv, who).users != [] && Fits(ViewOpt(a), parv, who)
    ensures var atA := SJoin(a, parv, who);
      && atA.fwd.Some? && LineOk(atA.fwd.value)
      && var atB := SJoin(b, atA.fwd.value, who');
         && ViewOf(atA.chan).ts == ViewOf(atB.chan).ts
         && ViewOf(atA.chan).status == ViewOf(atB.chan).status
         && (ViewOf(atA.chan) == ViewOf(atB.chan) <==> !LosesModes(ViewOpt(a), parv))
  {
    hide ParseModes, SJoin, Relay, Tokens, Atoi, UsersOf, MergeMode, StatusOf, Fits, KeyOk;
    RelayReads(a, parv, who, who', who.Keys);
    var d, fwd := DescOf(parv, who), SJoin(a, parv, who).fwd.value;
    assert Parses(parv) && Parses(fwd) && d.mode.limit >= 0;
    SJoinRefines(a, parv, who);
    SJoinRefines(b, fwd, who');
    RelayAgrees(ViewOpt(a), d, ZeroModes(parv));
    LosesIs(ViewOpt(a), parv);
  }

  // ----- lines that are cut off -----

  lemma {:induction false} AddedKeys(st: map<string, Status>, us: seq<User>, keepNew: bool, n: string)
    ensures n in AddUsers(st, us, keepNew) <==> n in st || exists i :: 0 <= i < |us| && us[i].nick == n
  {
    if us != [] {
      var init := us[..|us| - 1];
      AddedKeys(st, init, keepNew, n);
      if i :| 0 <= i < |init| && init[i].nick == n { assert us[i].nick == n; }
      if i :| 0 <= i < |us| && us[i].nick == n && i < |us| - 1 { assert init[i].nick == n; }
      if us[|us| - 1].nick == n { assert exists i :: 0 <= i < |us| && us[i].nick == n; }
    }
  }

  /** The accepted users of a line are new on the channel, each named once, and the next server takes
      no name for another one's. */
  predicate NewNames(v: Option<View>, parv: seq<string>, who: map<string, string>, who': map<string, string>)
    requires Parses(parv)
  {
    var out := Accepted(LineTokens(parv), who, Taken(v, parv).keepNew);
    && (forall i, j :: 0 <= i < j < |out| ==> Bare(out[i]) != Bare(out[j]))
    && (forall i :: 0 <= i < |out| ==> Bare(out[i]) !in OldView(v).status)
    && (forall n <- who' :: who'[n] == n)
  }

  /** The sender and the channel have names of the allowed length. */
  predicate HeadOk(parv: seq<string>)
    requires |parv| >= 5
  {
    |parv[0]| <= HOSTLEN && |parv[2]| <= CHANNELLEN
  }

  /** The tokens of a list that is cut off: whole ones, and the beginning of the next one, if any of it
      is left. */
  lemma {:induction false} CutTokens(ts: seq<string>, n: nat) returns (j: nat, p: string)
    requires Words(ts) && n < |ChopBlank(Spaced(ts))|
    ensures j < |ts| && |p| < |ts[j]| && p == ts[j][..|p|]
    ensures Tokens(ChopBlank(Spaced(ts))[..n]) == ts[..j] + if p == "" then [] else [p]
  {
    hide Tokens;
    var w, s := ts[0], ChopBlank(Spaced(ts));
    if |ts| == 1 { OnlyToken(ts); } else { FirstToken(ts); }
    if n < |w| {
      j, p := 0, w[..n];
      assert s[..n] == p + "";
      NoTokens();
      if p != "" { TokensCons(p, ""); }
    } else if n == |w| {
      j, p := 1, "";
      assert s[..n] == w + "";
      NoTokens();
      TokensCons(w, "");
      assert ts[..1] == [w];
    } else {
      var rest := ChopBlank(Spaced(ts[1..]));
      var m := n - |w| - 1;
      j, p := CutTokens(ts[1..], m);
      assert s[..n] == w + (" " + rest[..m]);
      TokensCons(w, " " + rest[..m]);
      TokensBlank(rest[..m]);
      assert ts[..j + 1] == [w] + ts[1..][..j];
      j := j + 1;
    }
  }

  lemma OnlyToken(ts: seq<string>)
    requires |ts| == 1
    ensures ChopBlank(Spaced(ts)) == ts[0]
  {
    hide ChopBlank, Spaced;
    SpacedFirst(ts);
    NoSpaced();
    assert ts[1..] == [];
    Chopped(ts[0]);
    assert ts[0] + (" " + "") == ts[0] + " ";
  }

  lemma FirstToken(ts: seq<string>)
    requires Words(ts) && |ts| > 1
    ensures ChopBlank(Spaced(ts)) == ts[0] + (" " + ChopBlank(Spaced(ts[1..])))
    ensures Words(ts[1..]) && ChopBlank(Spaced(ts[1..])) != ""
  {
    assert Words(ts[1..]);
    hide ChopBlank, Word, Words, Spaced;
    var t := ChopBlank(Spaced(ts[1..]));
    SpacedFirst(ts);
    SpacedChopped(ts[1..]);
    LastBlank(ts[0], t);
    Chopped(ts[0] + (" " + t));
  }

  lemma LastBlank(a: string, t: string)
    ensures a + (" " + (t + " ")) == (a + (" " + t)) + " "
  {
    assert " " + (t + " ") == (" " + t) + " ";
  }

  lemma SpacedFirst(ts: seq<string>)
    requires ts != []
    ensures Spaced(ts) == ts[0] + (" " + Spaced(ts[1..]))
  {
    assert ts[0] + " " + Spaced(ts[1..]) == ts[0] + (" " + Spaced(ts[1..]));
  }

  lemma SpacedChopped(ts: seq<string>)
    requires ts != [] && Words(ts)
    ensures Spaced(ts) == ChopBlank(Spaced(ts)) + " " && ChopBlank(Spaced(ts)) != ""
  {
    SpacedEndsInBlank(ts);
    SpacedLong(ts);
    var s := Spaced(ts);
    assert s == s[..|s| - 1] + [s[|s| - 1]];
  }

  lemma NoSpaced()
    ensures Spaced([]) == ""
  {
  }

  lemma SpacedLong(ts: seq<string>)
    requires ts != [] && Words(ts)
    ensures |Spaced(ts)| > 1
  {
    assert Word(ts[0]);
    assert Spaced(ts) == ts[0] + " " + Spaced(ts[1..]);
  }

  lemma Chopped(a: string)
    ensures ChopBlank(a + " ") == a
  {
    assert (a + " ")[..|a|] == a;
  }

  lemma NoTokens()
    ensures Tokens("") == []
  {
  }

  lemma TokensBlank(s: string)
    ensures Tokens(" " + s) == Tokens(s)
  {
    assert (" " + s)[1..] == s;
  }

  /** The beginning of a token names somebody else. */
  lemma {:induction false} BareShorter(t: string, n: nat)
    requires n < |t| && Bare(t) != ""
    ensures |Bare(t[..n])| < |Bare(t)|
  {
    if n > 0 && (t[0] == '@' || t[0] == '+') {
      assert t[..n][1..] == t[1..][..n - 1];
      BareShorter(t[1..], n - 1);
    }
  }

  lemma WordLength(m: Mode)
    requires ModeOk(m)
    ensures |ModeWord(m)| <= 9 && |ModeArgs(m)| <= 34
  {
    LargePowers();
    if m.limit > 0 { DigitsLength(m.limit, 10); }
  }

  /** All of a relayed line before the names gets through. */
  lemma HeadFits(v: Option<View>, parv: seq<string>)
    requires Limited(v) && LineOk(parv) && HeadOk(parv)
    ensures LineSize(parv[0], LineRest(Taken(v, parv).ts, parv[2], RelayWord(v, parv), RelayArgs(v, parv), "")) <= WIRE
  {
    hide ParseModes, Atoi, ModeWord, ModeArgs, TimeText, StrLess;
    TimeMiddle(Taken(v, parv).ts);
    WordLength(RelayMode(v, parv));
  }

  /** A user that is lost: the first one that is not named in full. */
  lemma LostUser(toks: seq<string>, n: nat, who: map<string, string>) returns (j: nat)
    requires Words(toks) && n < |ChopBlank(Spaced(toks))| && (forall m <- who :: who[m] == m)
    requires forall i :: 0 <= i < |toks| ==> NickOk(Bare(toks[i]))
    requires forall i, j :: 0 <= i < j < |toks| ==> Bare(toks[i]) != Bare(toks[j])
    ensures j < |toks|
    ensures forall i :: 0 <= i < |UsersOf(Tokens(ChopBlank(Spaced(toks))[..n]), who)| ==>
      UsersOf(Tokens(ChopBlank(Spaced(toks))[..n]), who)[i].nick != Bare(toks[j])
  {
    hide Tokens, Bare, MarksOp, MarksVoice, Spaced, ChopBlank, UsersOf;
    var p;
    j, p := CutTokens(toks, n);
    var cut := toks[..j] + if p == "" then [] else [p];
    BareShorter(toks[j], |p|);
    forall i | 0 <= i < |cut| ensures Bare(cut[i]) != Bare(toks[j]) { if i < j { assert cut[i] == toks[i]; } }
    NicksNamed(cut, who, Bare(toks[j]));
  }

  lemma {:induction false} NicksNamed(toks: seq<string>, who: map<string, string>, n: string)
    requires (forall m <- who :: who[m] == m) && forall i :: 0 <= i < |toks| ==> Bare(toks[i]) != n
    ensures forall i :: 0 <= i < |UsersOf(toks, who)| ==> UsersOf(toks, who)[i].nick != n
  {
    if toks != [] {
      hide Bare, MarksOp, MarksVoice;
      NicksNamed(toks[..|toks| - 1], who, n);
    }
  }

  /** The nicknames of users, in order. */
  lemma {:induction false} NicksOfAll(toks: seq<string>, who: map<string, string>)
    requires forall i :: 0 <= i < |toks| ==> Bare(toks[i]) in who && who[Bare(toks[i])] == Bare(toks[i])
    ensures |UsersOf(toks, who)| == |toks|
    ensures forall i :: 0 <= i < |toks| ==> UsersOf(toks, who)[i].nick == Bare(toks[i])
  {
    if toks != [] {
      hide Bare, MarksOp, MarksVoice;
      NicksOfAll(toks[..|toks| - 1], who);
    }
  }

  /** A line that is cut off: the next server does not get to know one of the new users. */
  lemma HopBreaks(a: Option<Chan>, b: Option<Chan>, parv: seq<string>, who: map<string, string>, who': map<string,
      string>)
    requires ViewOpt(a) == ViewOpt(b) && ChanOptOk(a) && ChanOptOk(b)
    requires LineOk(parv) && NamesOk(who) && SameNames(LineTokens(parv), who, who')
    requires DescOf(parv, who).users != [] && !Fits(ViewOpt(a), parv, who)
    requires NewNames(ViewOpt(a), parv, who, who') && HeadOk(parv)
    ensures var atA := SJoin(a, parv, who);
      Some(ViewOf(atA.chan)) != ViewOpt(NextChan(b, atA.fwd, who'))
  {
    hide ParseModes, SJoin, Tokens, Atoi, UsersOf, StatusOf, Fits, RelayRest, WireParv, Bare, MarksOp, MarksVoice,
        NickOk,
        AddUsers, Accepted, RelayWord, RelayArgs, LineRest, LineSize, MergeMode, ChopBlank, Spaced, JoinAll;
    var v, k := ViewOpt(a), Taken(ViewOpt(a), parv);
    var toks, names := LineTokens(parv), SentNames(v, parv, who);
    var out := Accepted(toks, who, k.keepNew);
    GoodView(a);
    RestIs(a, parv, who);
    HeadFits(v, parv);
    WireCut(parv[0], k.ts, parv[2], RelayWord(v, parv), RelayArgs(v, parv), names);
    NotWhole(v, parv, who);
    var n := Kept(LineSize(parv[0], RelayRest(v, parv, who)), names);
    var fwd := RelayParv(v, parv, names[..n]);
    RelayLine(v, parv, names[..n], who');
    SilentIs(a, parv, who);
    assert SJoin(a, parv, who).fwd == Some(fwd);
    AcceptedNames(toks, who, who', k.keepNew);
    var j := LostUser(out, n, who');
    var x := Bare(out[j]);
    assert DescOf(parv, who).users[j].nick == x;
    SJoinRefines(a, parv, who);
    SJoinRefines(b, fwd, who');
    StatusKeys(v, DescOf(parv, who), x);
    StatusKeys(v, DescOf(fwd, who'), x);
  }

  lemma NotWhole(v: Option<View>, parv: seq<string>, who: map<string, string>)
    requires Parses(parv)
    ensures RelayRest(v, parv, who)
         == LineRest(Taken(v, parv).ts, parv[2], RelayWord(v, parv), RelayArgs(v, parv), SentNames(v, parv, who))
    ensures Fits(v, parv, who) <==> LineSize(parv[0], RelayRest(v, parv, who)) <= WIRE
  {
    hide ParseModes, Atoi;
  }

  lemma StatusKeys(v: Option<View>, d: Desc, n: string)
    ensures n in Apply(v, d).status
       <==> n in OldView(v).status || exists i :: 0 <= i < |d.users| && d.users[i].nick == n
  {
    hide AddUsers, MergeMode;
    var k := Verdict(v, d.ts);
    AddedKeys(if k.keepOurs then OldView(v).status else Cleared(OldView(v).status), d.users, k.keepNew, n);
  }

  /** The accepted tokens are good, and each names one of the users. */
  lemma AcceptedNames(toks: seq<string>, who: map<string, string>, who': map<string, string>, keepNew: bool)
    requires Words(toks) && NamesOk(who) && SameNames(toks, who, who') && forall n <- who' :: who'[n] == n
    ensures var out, us := Accepted(toks, who, keepNew), UsersOf(toks, who);
      && Words(out) && (forall i :: 0 <= i < |out| ==> NickOk(Bare(out[i])))
      && |us| == |out| && forall i :: 0 <= i < |out| ==> us[i].nick == Bare(out[i])
  {
    hide JoinAll, UsersOf, NickOk, Bare, Word, Words, MarksOp, MarksVoice, SameNames, NamesOk, Naming, Sendable;
    var out, us := Accepted(toks, who, keepNew), UsersOf(toks, who);
    AllNamed(toks, who, who');
    RelayedNames([], toks, who, who', keepNew, who.Keys * who'.Keys);
    SentKnown(out, who.Keys * who'.Keys);
    NickAll(who);
    NicksOfAll(out, who');
    SameNicks(UsersOf(out, who'), us, keepNew);
  }

  lemma SameNicks(r: seq<User>, us: seq<User>, keepNew: bool)
    requires r == if keepNew then us else Plain(us)
    ensures |r| == |us| && forall i :: 0 <= i < |us| ==> r[i].nick == us[i].nick
  {
  }

  lemma AllNamed(toks: seq<string>, who: map<string, string>, who': map<string, string>)
    requires SameNames(toks, who, who')
    ensures Naming(toks, who, who.Keys * who'.Keys)
  {
    hide Bare;
  }

  lemma SentKnown(toks: seq<string>, names: set<string>)
    requires Sendable(toks, names)
    ensures Words(toks) && forall i :: 0 <= i < |toks| ==> Bare(toks[i]) in names
  {
    hide Bare, Word;
  }

  lemma NickAll(who: map<string, string>)
    requires NamesOk(who)
    ensures forall n <- who :: NickOk(n)
  {
  }

  /** One hop for every line, with or without users: servers A and B that agree on a channel agree
      again after A has processed the line and B what it got of the line that A sent on, if any. */
  lemma HopAgrees(a: Option<Chan>, b: Option<Chan>, parv: seq<string>,
                  who: map<string, string>, who': map<string, string>)
    requires ViewOpt(a) == ViewOpt(b) && ChanOptOk(a) && ChanOptOk(b)
    requires LineOk(parv) && NamesOk(who) && SameNames(LineTokens(parv), who, who')
    ensures var atA := SJoin(a, parv, who);
      var d, v := DescOf(parv, who), ViewOpt(a);
      var agree := Some(ViewOf(atA.chan)) == ViewOpt(NextChan(b, atA.fwd, who'));
      && (atA.fwd.None? <==> d.users == [])
      && (d.users == [] ==> (agree <==> LeavesAlone(v, d.ts, d.mode)))
      && (d.users != [] && Fits(v, parv, who) ==> (agree <==> !LosesModes(v, parv)))
      && (d.users != [] && NewNames(v, parv, who, who') && HeadOk(parv) ==>
            (agree <==> !LosesModes(v, parv) && Fits(v, parv, who)))
  {
    hide ParseModes, SJoin, Tokens, Atoi, UsersOf, MergeMode, StatusOf, LosesModes, LeavesAlone, NickOk, Bare, Fits,
        NewNames;
    SilentIs(a, parv, who);
    SJoinRefines(a, parv, who);
    if DescOf(parv, who).users == [] {
      AloneIs(ViewOpt(a), DescOf(parv, who));
    } else if Fits(ViewOpt(a), parv, who) {
      HopKeepsAgreement(a, b, parv, who, who');
    } else if NewNames(ViewOpt(a), parv, who, who') && HeadOk(parv) {
      HopBreaks(a, b, parv, who, who');
    }
  }

  // ----- every line, whatever of it gets through -----

  /** What a list of users says of a nickname that is not on the channel yet: the first entry counts. */
  function FirstStatus(us: seq<User>, n: string, keepNew: bool): Option<Status> {
    if us == [] then None
    else
      var before := FirstStatus(us[..|us| - 1], n, keepNew);
      var u := us[|us| - 1];
      if before.Some? || u.nick != n then before else Some(Status(keepNew && u.op, keepNew && u.voice))
  }

  lemma {:induction false} FirstStatusIs(st: map<string, Status>, us: seq<User>, keepNew: bool, n: string)
    ensures var r := AddUsers(st, us, keepNew);
      if n in st then n in r && r[n] == st[n]
      else (n in r <==> FirstStatus(us, n, keepNew).Some?) && (n in r ==> r[n] == FirstStatus(us, n, keepNew).value)
  {
    if us != [] { FirstStatusIs(st, us[..|us| - 1], keepNew, n); }
  }

  /** Two lists of users say the same of everyone who is not on the channel. */
  ghost predicate SameNew(st: map<string, Status>, us: seq<User>, keepNew: bool, us': seq<User>, keepNew': bool) {
    forall n :: n !in st ==> FirstStatus(us, n, keepNew) == FirstStatus(us', n, keepNew')
  }

  lemma SameAdded(st: map<string, Status>, us: seq<User>, keepNew: bool, us': seq<User>, keepNew': bool)
    ensures AddUsers(st, us, keepNew) == AddUsers(st, us', keepNew') <==> SameNew(st, us, keepNew, us', keepNew')
  {
    var r, r' := AddUsers(st, us, keepNew), AddUsers(st, us', keepNew');
    if r == r' {
      forall n | n !in st ensures FirstStatus(us, n, keepNew) == FirstStatus(us', n, keepNew') {
        FirstStatusIs(st, us, keepNew, n);
        FirstStatusIs(st, us', keepNew', n);
      }
    }
    if SameNew(st, us, keepNew, us', keepNew') {
      forall n ensures n in r <==> n in r'
               ensures n in r ==> r[n] == r'[n]
      {
        FirstStatusIs(st, us, keepNew, n);
        FirstStatusIs(st, us', keepNew', n);
      }
    }
  }

  /** The names that get through to the next server: all, or the first ones, the last of them perhaps
      shortened. */
  function Through(v: Option<View>, parv: seq<string>, who: map<string, string>): seq<string>
    requires Parses(parv)
  {
    var names, size := SentNames(v, parv, who), LineSize(parv[0], RelayRest(v, parv, who));
    Tokens(if size <= WIRE then names else if size - WIRE <= |names| then names[..|names| - (size - WIRE)] else "")
  }

  /** Exactly when two servers agree after any line that is sent on: it loses no modes, and all that is cut
      off of it says nothing of users that are not on the channel, and nor does what is left of a name. */
  lemma HopExact(a: Option<Chan>, b: Option<Chan>, parv: seq<string>, who: map<string, string>, who': map<string,
      string>)
    requires ViewOpt(a) == ViewOpt(b) && ChanOptOk(a) && ChanOptOk(b)
    requires LineOk(parv) && NamesOk(who) && SameNames(LineTokens(parv), who, who')
    requires DescOf(parv, who).users != [] && HeadOk(parv)
    ensures var atA := SJoin(a, parv, who);
      var v, k := ViewOpt(a), Taken(ViewOpt(a), parv);
      Some(ViewOf(atA.chan)) == ViewOpt(NextChan(b, atA.fwd, who'))
      <==> !LosesModes(v, parv)
           && SameNew(OldView(v).status, DescOf(parv, who).users, k.keepNew, UsersOf(Through(v, parv, who), who'), true)
  {
    hide ParseModes, SJoin, Tokens, Atoi, UsersOf, StatusOf, Fits, RelayRest, WireParv, Bare, NickOk, Apply, Relay,
        AddUsers, Accepted, RelayWord, RelayArgs, LineRest, LineSize, MergeMode, ChopBlank, Spaced, JoinAll, SameNew,
        LosesModes;
    var v, k := ViewOpt(a), Taken(ViewOpt(a), parv);
    var names := SentNames(v, parv, who);
    GoodView(a);
    RestIs(a, parv, who);
    HeadFits(v, parv);
    WireCut(parv[0], k.ts, parv[2], RelayWord(v, parv), RelayArgs(v, parv), names);
    NotWhole(v, parv, who);
    var n := Kept(LineSize(parv[0], RelayRest(v, parv, who)), names);
    var fwd := RelayParv(v, parv, names[..n]);
    RelayLine(v, parv, names[..n], who');
    SilentIs(a, parv, who);
    assert names[..|names|] == names;
    assert Tokens(names[..n]) == Through(v, parv, who);
    assert SJoin(a, parv, who).fwd == Some(fwd);
    SJoinRefines(a, parv, who);
    SJoinRefines(b, fwd, who');
    CarriedView(a, parv);
    CutApplied(v, parv, who, DescOf(fwd, who'));
  }

  /** The cut-off line at the next server, said of the view. */
  lemma CutApplied(v: Option<View>, parv: seq<string>, who: map<string, string>, d: Desc)
    requires Limited(v) && LineOk(parv) && d.ts == Taken(v, parv).ts
    requires d.mode == if RelaysModes(v, parv) then RelayMode(v, parv) else NO_MODE
    ensures Apply(v, DescOf(parv, who)) == Apply(v, d)
       <==> !LosesModes(v, parv)
            && SameNew(OldView(v).status, DescOf(parv, who).users, Taken(v, parv).keepNew, d.users, true)
  {
    hide ParseModes, Tokens, Atoi, UsersOf, AddUsers, MergeMode, StrLess, SameNew, LosesModes, KeyOk;
    var k, w := Taken(v, parv), OldView(v);
    LosesIs(v, parv);
    RelayAgrees(v, DescOf(parv, who), ZeroModes(parv));
    var st := if k.keepOurs then w.status else Cleared(w.status);
    SameAdded(st, DescOf(parv, who).users, k.keepNew, d.users, true);
    ClearedSame(w.status, DescOf(parv, who).users, k.keepNew, d.users, true);
  }

  lemma ClearedSame(st: map<string, Status>, us: seq<User>, keepNew: bool, us': seq<User>, keepNew': bool)
    ensures SameNew(Cleared(st), us, keepNew, us', keepNew') <==> SameNew(st, us, keepNew, us', keepNew')
  {
    assert forall n :: n in Cleared(st) <==> n in st;
  }

  // ----- lines after which the servers disagree -----

  /** A line with "0m" for modes, on a channel that both servers have without modes. */
  const ZERO_LINE: seq<string> := ["s", "5", "#c", "0m", "bob"]
  const BARE_CHAN := Chan(5, NO_MODE, [], false)

  /** The agreement is lost on it: the second server does not get the m. */
  lemma ZeroLineLoses()
    ensures var who := map["bob" := "bob"];
      && ChanOk(BARE_CHAN) && LineOk(ZERO_LINE) && NamesOk(who) && SameNames(LineTokens(ZERO_LINE), who, who)
      && DescOf(ZERO_LINE, who).users != [] && Fits(Some(ViewOf(BARE_CHAN)), ZERO_LINE, who)
      && var atA := SJoin(Some(BARE_CHAN), ZERO_LINE, who);
         Some(ViewOf(atA.chan)) != ViewOpt(NextChan(Some(BARE_CHAN), atA.fwd, who))
  {
    var who := map["bob" := "bob"];
    ZeroLineGood();
    ZeroLineFits();
    hide LineOk, ParseModes, SJoin, Tokens, Atoi, StatusOf, UsersOf, Fits, LosesModes, DescOf, NamesOk, Bare,
        LineTokens;
    HopAgrees(Some(BARE_CHAN), Some(BARE_CHAN), ZERO_LINE, who, who);
  }

  lemma ZeroLineGood()
    ensures var who := map["bob" := "bob"];
      && LineOk(ZERO_LINE) && NamesOk(who) && DescOf(ZERO_LINE, who).users != []
      && LosesModes(Some(ViewOf(BARE_CHAN)), ZERO_LINE)
  {
    ZeroLineParses();
    assert NickOk("bob");
    hide ParseModes, Tokens, Atoi, UsersOf;
  }

  lemma ZeroLineFits()
    ensures Parses(ZERO_LINE) && Fits(Some(ViewOf(BARE_CHAN)), ZERO_LINE, map["bob" := "bob"])
  {
    var who := map["bob" := "bob"];
    ZeroLineParses();
    BobSpaced(who);
    hide ParseModes, Tokens, Atoi, TimeText, Spaced, JoinAll;
    assert Taken(Some(ViewOf(BARE_CHAN)), ZERO_LINE) == Decision(5, true, true);
    assert |SentNames(Some(ViewOf(BARE_CHAN)), ZERO_LINE, who)| <= 4;
    assert RelayWord(Some(ViewOf(BARE_CHAN)), ZERO_LINE) == "0" && RelayArgs(Some(ViewOf(BARE_CHAN)), ZERO_LINE) == " ";
    ShortFits(Some(ViewOf(BARE_CHAN)), ZERO_LINE, who);
  }

  lemma ShortFits(v: Option<View>, parv: seq<string>, who: map<string, string>)
    requires Parses(parv) && |parv[0]| == 1 && |parv[2]| == 2 && TsOk(Taken(v, parv).ts)
    requires RelayWord(v, parv) == "0" && RelayArgs(v, parv) == " " && |SentNames(v, parv, who)| <= 4
    ensures Fits(v, parv, who)
  {
    hide ParseModes, Atoi, TimeText, SentNames, RelayWord, RelayArgs, Taken, RelayRest, Fits;
    NotWhole(v, parv, who);
    ShortLine(parv[0], Taken(v, parv).ts, parv[2], SentNames(v, parv, who));
  }

  lemma ShortLine(sender: string, ts: int, name: string, names: string)
    requires TsOk(ts) && |sender| == 1 && |name| == 2 && |names| <= 4
    ensures LineSize(sender, LineRest(ts, name, "0", " ", names)) <= WIRE
  {
    hide TimeText;
    TimeMiddle(ts);
  }

  lemma BobSpaced(who: map<string, string>)
    requires who == map["bob" := "bob"]
    ensures Accepted(["bob"], who, true) == ["bob"] && |Spaced(["bob"])| == 4
  {
    assert ["bob"][..0] == [] && ["bob"][1..] == [];
    assert Bare("bob") == "bob" && JoinAll([], [], who, true).out == [];
    assert Accepted(["bob"], who, true) == [] + ["bob"];
    assert Spaced([]) == "" && Spaced(["bob"]) == "bob" + " " + "";
  }

  lemma ZeroLineParses()
    ensures ParseModes("0m", ZERO_LINE, 0, NO_MODE) == Some((Mode({Moderated}, 0, ""), 0))
    ensures Atoi("5") == 5 && Tokens("bob") == ["bob"] && Accepts(true, ZERO_LINE)
    ensures UsersOf(["bob"], map["bob" := "bob"]) == [User("bob", false, false)]
  {
    assert "0m"[1..] == "m" && "m"[1..] == "";
    assert NO_MODE.flags + {Moderated} == {Moderated};
    assert "5"[1..] == "";
    TokensCons("bob", "");
    assert "bob" + "" == "bob";
    assert ["bob"][..0] == [];
  }
}
