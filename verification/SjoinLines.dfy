/** SJOIN lines read back: what a server prints with channel_modes and a list of names is
    what the parser and m_sjoin's own parsing recover from it. */
module SjoinLines {
  import opened Text
  import opened Channels
  import opened ChannelViews

  /** A key that can be sent as one parameter and stored whole. */
  predicate KeyOk(k: string) { (k == "" || Middle(k)) && |k| <= KEYLEN }

  /** The arguments of the mode word, in order. */
  function ArgList(m: Mode): seq<string> {
    (if m.limit != 0 then [Decimal(m.limit)] else []) + (if m.key != "" then [m.key] else [])
  }

  lemma ParamsWord(w: string, rest: string)
    requires Middle(w)
    ensures Params(w + " " + rest) == [w] + Params(rest)
  {
    ParamsCons(w, " " + rest);
    assert w + (" " + rest) == w + " " + rest;
    assert (" " + rest)[1..] == rest;
  }

  lemma ParamsBlank(rest: string)
    ensures Params(" " + rest) == Params(rest)
  {
    assert (" " + rest)[1..] == rest;
  }

  lemma DecimalMiddle(n: int)
    ensures Middle(Decimal(n))
  {
  }

  lemma ParamsModeArgs(m: Mode, rest: string)
    requires KeyOk(m.key)
    ensures Params(ModeArgs(m) + " " + rest) == ArgList(m) + Params(rest)
    ensures ModeArgs(m) == "" ==> ArgList(m) == []
  {
    hide Params, Decimal;
    var k := m.key;
    assert Params(k + " " + rest) == (if k != "" then [k] else []) + Params(rest) by {
      if k == "" { assert k + " " + rest == " " + rest; ParamsBlank(rest); } else { ParamsWord(k, rest); }
    }
    if m.limit != 0 {
      var tail := k + " " + rest;
      DecimalMiddle(m.limit);
      ParamsWord(Decimal(m.limit), tail);
      assert ModeArgs(m) + " " + rest == Decimal(m.limit) + " " + tail;
    } else {
      assert ModeArgs(m) == k;
    }
  }

  lemma ParamsLast(names: string)
    ensures Params(":" + names) == [names]
  {
    assert (":" + names)[1..] == names;
  }

  lemma ParamsFour(d: string, name: string, word: string, rest: string)
    requires Middle(d) && Middle(name) && Middle(word)
    ensures Params(d + " " + (name + " " + (word + " " + rest))) == [d, name, word] + Params(rest)
  {
    hide Params, Middle;
    ParamsWord(word, rest);
    ParamsWord(name, word + " " + rest);
    ParamsWord(d, name + " " + (word + " " + rest));
  }

  /** The whole line cut into parameters. */
  lemma LineParvIs(sender: string, ts: int, name: string, word: string, m: Mode, args: string, names: string)
    requires TsOk(ts) && Middle(name) && Middle(word) && KeyOk(m.key)
    requires args == ModeArgs(m) + " " || (args == ModeArgs(m) == "")
    ensures LineParv(sender, ts, name, word, args, names)
         == [sender, TimeText(ts), name, word] + ArgList(m) + [names]
  {
    hide Params, Middle, ModeArgs, ArgList, TimeText, KeyOk;
    var last := ":" + names;
    assert Params(args + last) == ArgList(m) + [names] by {
      ParamsLast(names);
      ParamsModeArgs(m, last);
      if args == "" { assert args + last == last; }
    }
    TimeMiddle(ts);
    ParamsFour(TimeText(ts), name, word, args + last);
  }

  /** `acc` with `f` added when `m` has it. */
  function With(m: Mode, f: Flag, acc: Mode): Mode {
    if f in m.flags then acc.(flags := acc.flags + {f}) else acc
  }

  lemma ParsePlus(rest: string, parv: seq<string>)
    requires 5 <= |parv|
    ensures ParseModes("+" + rest, parv, 0, NO_MODE) == ParseModes(rest, parv, 0, NO_MODE)
  {
    assert ("+" + rest)[1..] == rest;
  }

  lemma ParseLetter(m: Mode, f: Flag, c: char, rest: string, parv: seq<string>, args: nat, acc: Mode)
    requires 5 + args <= |parv|
    requires c != 'k' && c != 'l' && FlagOf(c) == Some(f)
    ensures ParseModes(Letter(m, f, c) + rest, parv, args, acc)
         == ParseModes(rest, parv, args, With(m, f, acc))
  {
    if f in m.flags {
      assert (Letter(m, f, c) + rest)[1..] == rest;
    } else {
      assert Letter(m, f, c) + rest == rest;
    }
  }

  /** The last two letters of the mode word with their arguments. */
  lemma ParseLimitKey(m: Mode, parv: seq<string>, acc: Mode)
    requires |parv| == 5 + |ArgList(m)| && parv[4..4 + |ArgList(m)|] == ArgList(m)
    requires KeyOk(m.key)
    requires acc.limit == 0 && acc.key == ""
    ensures ParseModes(ArgLetters(m), parv, 0, acc)
         == Some((acc.(limit := m.limit, key := m.key), |ArgList(m)|))
  {
    var k := if m.key != "" then "k" else "";
    var n := if m.limit != 0 then 1 else 0;
    var mid := acc.(limit := m.limit);
    if m.key != "" {
      assert parv[4 + n] == parv[4..4 + |ArgList(m)|][n];
      assert k[1..] == "";
    }
    assert ParseModes(k, parv, n, mid) == Some((acc.(limit := m.limit, key := m.key), |ArgList(m)|));
    if m.limit != 0 {
      assert parv[4] == parv[4..4 + |ArgList(m)|][0];
      AtoiDecimal(m.limit);
      assert ("l" + k)[1..] == k;
    } else {
      assert "" + k == k;
      assert mid == acc;
    }
  }

  /** Six letters are read, one after the other. */
  function SixRead(m: Mode): Mode {
    With(m, NoPrivMsgs, With(m, InviteOnly,
        With(m, TopicLimit, With(m, Moderated, With(m, Private, With(m, Secret, NO_MODE))))))
  }

  lemma ParseSix(m: Mode, parv: seq<string>)
    requires 5 <= |parv|
    ensures ParseModes(ModeWord(m), parv, 0, NO_MODE) == ParseModes(ArgLetters(m), parv, 0, SixRead(m))
  {
    hide Letter, ArgLetters, ParseModes, With;
    var r5 := Letter(m, NoPrivMsgs, 'n') + ArgLetters(m);
    var r4 := Letter(m, InviteOnly, 'i') + r5;
    var r3 := Letter(m, TopicLimit, 't') + r4;
    var r2 := Letter(m, Moderated, 'm') + r3;
    var r1 := Letter(m, Private, 'p') + r2;
    var m1 := With(m, Secret, NO_MODE);
    var m2 := With(m, Private, m1);
    var m3 := With(m, Moderated, m2);
    var m4 := With(m, TopicLimit, m3);
    ParsePlus(Letter(m, Secret, 's') + r1, parv);
    ParseLetter(m, Secret, 's', r1, parv, 0, NO_MODE);
    ParseLetter(m, Private, 'p', r2, parv, 0, m1);
    ParseLetter(m, Moderated, 'm', r3, parv, 0, m2);
    ParseLetter(m, TopicLimit, 't', r4, parv, 0, m3);
    ParseLetter(m, InviteOnly, 'i', r5, parv, 0, m4);
    ParseLetter(m, NoPrivMsgs, 'n', ArgLetters(m), parv, 0, With(m, InviteOnly, m4));
  }

  lemma SixIs(m: Mode)
    ensures SixRead(m) == Mode(Carried(m).flags, 0, "")
  {
    AllFlags(SixRead(m).flags, Carried(m).flags);
  }

  lemma ParseModeWord(m: Mode, parv: seq<string>)
    requires |parv| == 5 + |ArgList(m)| && parv[4..4 + |ArgList(m)|] == ArgList(m)
    requires KeyOk(m.key)
    ensures ParseModes(ModeWord(m), parv, 0, NO_MODE) == Some((Carried(m), |ArgList(m)|))
  {
    hide ModeWord, ParseModes, ArgLetters, ArgList, KeyOk, SixRead;
    ParseSix(m, parv);
    SixIs(m);
    ParseLimitKey(m, parv, SixRead(m));
  }

  lemma AllFlags(a: set<Flag>, b: set<Flag>)
    requires Private in a <==> Private in b
    requires Secret in a <==> Secret in b
    requires Moderated in a <==> Moderated in b
    requires TopicLimit in a <==> TopicLimit in b
    requires InviteOnly in a <==> InviteOnly in b
    requires NoPrivMsgs in a <==> NoPrivMsgs in b
    requires Limit in a <==> Limit in b
    ensures a == b
  {
    forall f: Flag ensures f in a <==> f in b {
      match f
      case Private => case Secret => case Moderated => case TopicLimit =>
      case InviteOnly => case NoPrivMsgs => case Limit =>
    }
  }

  /** A timestamp that reads back as it is printed. */
  predicate TsOk(ts: int) { 0 <= ts < 10 * BILLION }

  /** A line with its modes written out reads back as the same timestamp, modes and names. */
  lemma FullLineReads(sender: string, ts: int, name: string, m: Mode, args: string, names: string,
                      who: map<string, string>)
    requires TsOk(ts) && Middle(name) && KeyOk(m.key)
    requires args == ModeArgs(m) + " " || (args == ModeArgs(m) == "")
    ensures var parv := LineParv(sender, ts, name, ModeWord(m), args, names);
      && Parses(parv) && parv[2] == name && parv[3] == ModeWord(m)
      && DescOf(parv, who) == Desc(ts, Carried(m), UsersOf(Tokens(names), who))
  {
    hide ParseModes, UsersOf, Tokens, ModeWord, ModeArgs, Middle;
    WordMiddle(m);
    LineParvIs(sender, ts, name, ModeWord(m), m, args, names);
    var parv := LineParv(sender, ts, name, ModeWord(m), args, names);
    assert parv[4..4 + |ArgList(m)|] == ArgList(m);
    ParseModeWord(m, parv);
    TimeReads(ts);
  }

  lemma WordMiddle(m: Mode)
    ensures Middle(ModeWord(m)) && ModeWord(m)[0] == '+'
  {
    LettersNoBlank(m);
  }

  lemma LettersNoBlank(m: Mode)
    ensures ' ' !in ModeWord(m)
  {
    assert forall f: Flag, c: char | c != ' ' :: ' ' !in Letter(m, f, c);
    hide Letter;
    assert ' ' !in ArgLetters(m);
    assert ' ' !in Letter(m, NoPrivMsgs, 'n') + ArgLetters(m);
  }

  lemma NoArgs()
    ensures ArgList(NO_MODE) == [] && ModeArgs(NO_MODE) == "" && KeyOk(NO_MODE.key) && Middle("0")
  {
  }

  /** A line with "0" for modes reads back as naming none. */
  lemma ZeroLineReads(sender: string, ts: int, name: string, args: string, names: string, who: map<string, string>)
    requires TsOk(ts) && Middle(name) && (args == " " || args == "")
    ensures var parv := LineParv(sender, ts, name, "0", args, names);
      && Parses(parv) && parv[2] == name && parv[3] == "0"
      && DescOf(parv, who) == Desc(ts, NO_MODE, UsersOf(Tokens(names), who))
  {
    hide TimeText, Params, LineParv, Tokens, UsersOf;
    LineParvIs(sender, ts, name, "0", NO_MODE, args, names);
    NoArgs();
    var parv := LineParv(sender, ts, name, "0", args, names);
    assert parv == [sender, TimeText(ts), name, "0", names];
    assert "0"[1..] == "";
    assert ParseModes("", parv, 0, NO_MODE) == Some((NO_MODE, 0));
    assert ParseModes("0", parv, 0, NO_MODE) == Some((NO_MODE, 0));
    TimeReads(ts);
  }
}
