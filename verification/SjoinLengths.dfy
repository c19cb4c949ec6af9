/** How long a relayed SJOIN gets: on the way through a tree it stays the same text, the lines of a burst
    keep room for every merge, and a line that a server may well accept grows beyond what goes over a link. */
module SjoinLengths {
  import opened Text
  import opened Channels
  import opened ChannelViews
  import opened SjoinLines
  import opened SjoinAgreement

  // ----- the same text at every server -----

  lemma {:induction false} AcceptedAll(toks: seq<string>, who: map<string, string>)
    requires forall i :: 0 <= i < |toks| ==> Bare(toks[i]) in who
    ensures Accepted(toks, who, true) == toks
  {
    if toks != [] {
      hide Bare, MarksOp, MarksVoice, IsMember;
      AcceptedAll(toks[..|toks| - 1], who);
      assert toks == toks[..|toks| - 1] + [toks[|toks| - 1]];
    }
  }

  /** A server that gets a relayed line, in the state in which the line was written, writes the same again. */
  lemma TextAgain(v: Option<View>, parv: seq<string>, fwd: seq<string>, who: map<string, string>,
                  who': map<string, string>, names: set<string>)
    requires Limited(v) && LineOk(parv) && names <= who'.Keys
    requires fwd == RelayParv(v, parv, SentNames(v, parv, who))
    requires LineOk(fwd) && Sendable(LineTokens(fwd), names)
    requires LineTokens(fwd) == Accepted(LineTokens(parv), who, Taken(v, parv).keepNew)
    ensures RelayRest(v, fwd, who') == RelayRest(v, parv, who)
  {
    hide ParseModes, Tokens, Atoi, UsersOf, LineParv, LineRest, StrLess, ModeWord, ModeArgs, Accepted, Bare, MergeMode,
         LineTokens, ChopBlank, Spaced, ModeOk, Word, Carried, ChanChar;
    RelayLine(v, parv, SentNames(v, parv, who), who');
    AcceptedAll(LineTokens(fwd), who');
    SameDecision(v, Atoi(parv[1]));
    if RelaysModes(v, parv) {
      ModesAgain(v, parv);
      WordCarried(RelayMode(v, parv));
      WordCarried(RelayMode(v, fwd));
    }
  }

  lemma SameDecision(v: Option<View>, ts: int)
    ensures var k, k' := Verdict(v, ts), Verdict(v, Verdict(v, ts).ts);
      && k'.ts == k.ts && k'.keepNew && (k.keepNew ==> k' == k)
  {
  }

  lemma ModesAgain(v: Option<View>, parv: seq<string>)
    requires Parses(parv) && Taken(v, parv).keepNew
    ensures var m := RelayMode(v, parv);
      Carried(MergeMode(Taken(v, parv), Carried(m), OldView(v).mode)) == Carried(m)
  {
    hide ParseModes, Atoi, StrLess;
    var k, w := Taken(v, parv), OldView(v).mode;
    if k.keepOurs { MergeTwice(k, TheirMode(parv), w); }
  }

  // ----- lines with room -----

  lemma {:induction false} BareLength(t: string)
    ensures |Bare(t)| <= |t|
  {
    if t != "" && (t[0] == '@' || t[0] == '+') { BareLength(t[1..]); }
  }

  lemma SpacedSnoc(ts: seq<string>, t: string)
    ensures |Spaced(ts + [t])| == |Spaced(ts)| + |t| + 1
  {
    SpacedConcat(ts, [t]);
    SpacedFirst([t]);
    NoSpaced();
    assert [t][1..] == [];
  }

  /** The names that are sent on take no more room than those that came. */
  lemma {:induction false} AcceptedShorter(toks: seq<string>, who: map<string, string>, keepNew: bool)
    ensures |Spaced(Accepted(toks, who, keepNew))| <= |Spaced(toks)|
  {
    if toks == [] {
    } else {
      hide Bare, MarksOp, MarksVoice, IsMember, Spaced, Accepted;
      var init, t := toks[..|toks| - 1], toks[|toks| - 1];
      assert toks == init + [t];
      AcceptedShorter(init, who, keepNew);
      AcceptedLast(init, t, who, keepNew);
      SpacedSnoc(init, t);
      if Bare(t) in who {
        SpacedSnoc(Accepted(init, who, keepNew), if keepNew then t else Bare(t));
        BareLength(t);
      } else {
        assert Accepted(init, who, keepNew) + [] == Accepted(init, who, keepNew);
      }
    }
  }

  lemma AcceptedLast(init: seq<string>, t: string, who: map<string, string>, keepNew: bool)
    ensures Accepted(init + [t], who, keepNew)
         == Accepted(init, who, keepNew) + if Bare(t) in who then [if keepNew then t else Bare(t)] else []
  {
    hide JoinAll, Bare;
    JoinLast([], init, t, who, keepNew);
  }

  /** Room for any time, any modes and any key. */
  predicate Roomy(parv: seq<string>)
    requires Parses(parv)
  {
    |parv[0]| + |parv[2]| + |Spaced(LineTokens(parv))| <= WIRE - 66
  }

  /** A line with room is sent on as a whole by every server, whatever it has on the channel. */
  lemma RoomyFits(v: Option<View>, parv: seq<string>, who: map<string, string>)
    requires Limited(v) && LineOk(parv) && Roomy(parv)
    ensures Fits(v, parv, who)
  {
    hide ParseModes, Atoi, ModeWord, ModeArgs, TimeText, StrLess, LineTokens, Spaced, Accepted, ChanChar;
    TimeMiddle(Taken(v, parv).ts);
    WordLength(RelayMode(v, parv));
    AcceptedShorter(LineTokens(parv), who, Taken(v, parv).keepNew);
  }

  // ----- a line without room -----

  /** 49 nicknames of nine characters. */
  function Nick(i: nat): (n: string)
    requires i < 49
    ensures NickOk(n) && Bare(n) == n && |n| == NICKLEN
    ensures n[7] as int == 97 + i / 7 && n[8] as int == 97 + i % 7
  {
    var n := "newuser" + [(97 + i / 7) as char, (97 + i % 7) as char];
    assert n[0] == 'n';
    n
  }

  const NICKS: seq<string> := seq(49, i requires 0 <= i < 49 => Nick(i))
  const KNOWN: map<string, string> := map n <- NICKS :: n

  /** A line of 506 characters, and the channel that it reaches. */
  const LONG_LINE: seq<string> := ["s", "5", "#c", "+", ChopBlank(Spaced(NICKS))]
  const KEY: string := "abcdefghijklmnopqrstuvw"
  const LONG_CHAN := Chan(5, Mode({Secret, Private, Moderated, TopicLimit, InviteOnly, NoPrivMsgs}, INT_MAX, KEY),
      [], false)

  lemma {:induction false} SpacedNine(ts: seq<string>)
    requires forall i :: 0 <= i < |ts| ==> |ts[i]| == NICKLEN
    ensures |Spaced(ts)| == 10 * |ts|
  {
    if ts != [] { SpacedNine(ts[1..]); }
  }

  lemma NicksDiffer(i: nat, j: nat)
    requires i < j < 49
    ensures Bare(NICKS[i]) != Bare(NICKS[j])
  {
    hide Bare;
    assert NICKS[i] == Nick(i) && NICKS[j] == Nick(j);
  }

  lemma PlusLine(names: string)
    ensures var parv := ["s", "5", "#c", "+", names];
      && Accepts(true, parv) && ParseModes(parv[3], parv, 0, NO_MODE) == Some((NO_MODE, 0)) && Atoi(parv[1]) == 5
  {
    var parv := ["s", "5", "#c", "+", names];
    assert "5"[1..] == "";
    assert "+" + "" == "+";
    ParsePlus("", parv);
  }

  lemma LongNames()
    ensures |Spaced(NICKS)| == 490 && |ChopBlank(Spaced(NICKS))| == 489 && Tokens(ChopBlank(Spaced(NICKS))) == NICKS
    ensures Accepted(NICKS, KNOWN, true) == NICKS && Words(NICKS) && NamesOk(KNOWN)
  {
    hide Tokens, Spaced, Accepted, Bare;
    SpacedNine(NICKS);
    assert forall i :: 0 <= i < 49 ==> NICKS[i] == Nick(i);
    TokensChop(NICKS);
    SpacedEndsInBlank(NICKS);
    AcceptedAll(NICKS, KNOWN);
  }

  lemma LongLineReads()
    ensures LineOk(LONG_LINE) && LineTokens(LONG_LINE) == NICKS && Taken(Some(ViewOf(LONG_CHAN)), LONG_LINE).keepNew
    ensures !ZeroModes(LONG_LINE) && TheirMode(LONG_LINE) == NO_MODE && HeadOk(LONG_LINE)
    ensures SentNames(Some(ViewOf(LONG_CHAN)), LONG_LINE, KNOWN) == LONG_LINE[4]
  {
    PlusLine(LONG_LINE[4]);
    LongNames();
    hide Tokens, Spaced, Accepted, Bare, ParseModes, Atoi, Accepts, NICKS, ChopBlank;
  }

  lemma LongModes()
    ensures ViewOf(LONG_CHAN).mode == LONG_CHAN.mode
    ensures |ModeWord(LONG_CHAN.mode)| == 9 && |ModeArgs(LONG_CHAN.mode)| >= 25
  {
    assert Carried(LONG_CHAN.mode).flags == LONG_CHAN.mode.flags;
  }

  lemma LongLineModes()
    ensures Parses(LONG_LINE) && var v := Some(ViewOf(LONG_CHAN));
      && RelaysModes(v, LONG_LINE) && RelayMode(v, LONG_LINE) == LONG_CHAN.mode && Taken(v, LONG_LINE).ts == 5
  {
    LongLineReads();
    LongModes();
    PlusLine(LONG_LINE[4]);
    MergeNone(Decision(5, true, true), LONG_CHAN.mode);
    hide Tokens, ParseModes, Atoi, NICKS, ChopBlank, SentNames, KNOWN, KEY, MergeMode;
  }

  lemma SizeIs(sender: string, ts: int, name: string, word: string, args: string, names: string)
    requires TsOk(ts)
    ensures LineSize(sender, LineRest(ts, name, word, args, names))
         == 12 + |sender| + |TimeText(ts)| + |name| + |word| + |args| + |names|
  {
    hide TimeText;
  }

  /** What the server would write is longer than its buffer. */
  lemma LongLineUnfit()
    ensures Parses(LONG_LINE) && var rest := RelayRest(Some(ViewOf(LONG_CHAN)), LONG_LINE, KNOWN);
      LineSize(LONG_LINE[0], rest) + 1 > BUFSIZE && !Fits(Some(ViewOf(LONG_CHAN)), LONG_LINE, KNOWN)
  {
    var v := Some(ViewOf(LONG_CHAN));
    LongLineReads();
    LongNames();
    LongModes();
    LongLineModes();
    TimeMiddle(5);
    hide Parses, NICKS, ChopBlank, Spaced, SentNames, TimeText, KNOWN, ModeWord, ModeArgs, ViewOf, KEY, LineRest,
        LineSize,
         RelaysModes, RelayMode, Taken, LineOk;
    SizeIs("s", 5, "#c", RelayWord(v, LONG_LINE), RelayArgs(v, LONG_LINE), SentNames(v, LONG_LINE, KNOWN));
    NotWhole(v, LONG_LINE, KNOWN);
  }

  /** The line as it comes in over a link. */
  lemma LongLineArrives()
    ensures var text := "5 #c + :" + LONG_LINE[4];
      LineSize("s", text) == 506 && WireParv("s", text) == LONG_LINE
  {
    LongNames();
    hide NICKS, ChopBlank, Spaced, Params;
    var x := LONG_LINE[4];
    ParamsFour("5", "#c", "+", ":" + x);
    ParamsLast(x);
    assert "5" + " " + ("#c" + " " + ("+" + " " + (":" + x))) == "5 #c + :" + x;
    assert ["5", "#c", "+"] + [x] == ["5", "#c", "+", x];
  }

  lemma LongLineNew()
    ensures Parses(LONG_LINE) && NewNames(Some(ViewOf(LONG_CHAN)), LONG_LINE, KNOWN, KNOWN)
  {
    LongLineReads();
    LongNames();
    forall i, j | 0 <= i < j < |NICKS| ensures Bare(NICKS[i]) != Bare(NICKS[j]) { NicksDiffer(i, j); }
    assert OldView(Some(ViewOf(LONG_CHAN))).status == map[] by { assert StatusOf([]) == map[]; }
    hide Tokens, LineTokens, LineOk, Taken, ParseModes, Atoi, NICKS, ChopBlank, Spaced, Accepted, Bare, ViewOf, OldView;
  }

  lemma LongLineUsers()
    ensures Parses(LONG_LINE) && SameNames(NICKS, KNOWN, KNOWN) && DescOf(LONG_LINE, KNOWN).users != []
  {
    LongLineReads();
    assert forall i :: 0 <= i < 49 ==> NICKS[i] == Nick(i);
    NicksOfAll(NICKS, KNOWN);
    hide Tokens, ParseModes, Atoi, NICKS, ChopBlank, Spaced, Accepted, Bare, UsersOf, SentNames, KNOWN;
  }

  /** What a server that hands a cut-off line to one like itself leads to. */
  lemma UnfitLoses(was: Chan, parv: seq<string>, who: map<string, string>)
    requires ChanOk(was) && LineOk(parv) && NamesOk(who) && SameNames(LineTokens(parv), who, who)
    requires DescOf(parv, who).users != [] && HeadOk(parv) && NewNames(Some(ViewOf(was)), parv, who, who)
    requires LineSize(parv[0], RelayRest(Some(ViewOf(was)), parv, who)) + 1 > BUFSIZE
    ensures var atA := SJoin(Some(was), parv, who);
      atA.size + 1 > BUFSIZE && Some(ViewOf(atA.chan)) != ViewOpt(NextChan(Some(was), atA.fwd, who))
  {
    hide SJoin, ParseModes, LineTokens, DescOf, NewNames, RelayRest, LineSize, ViewOf, NamesOk, SameNames, HeadOk,
        NextChan;
    assert Parses(parv) && ViewOpt(Some(was)) == Some(ViewOf(was));
    RestIs(Some(was), parv, who);
    assert !Fits(Some(ViewOf(was)), parv, who);
    HopAgrees(Some(was), Some(was), parv, who, who);
  }

  /** A good line that comes in whole and loses no modes: the text that is written for the next server is
      longer than sjbuf, and that server does not get all of it. */
  lemma LongLineLoses()
    ensures var v := Some(ViewOf(LONG_CHAN));
      && ChanOk(LONG_CHAN) && LineOk(LONG_LINE) && NamesOk(KNOWN) && SameNames(LineTokens(LONG_LINE), KNOWN, KNOWN)
      && DescOf(LONG_LINE, KNOWN).users != [] && !LosesModes(v, LONG_LINE)
      && var atA := SJoin(Some(LONG_CHAN), LONG_LINE, KNOWN);
         && atA.size + 1 > BUFSIZE
         && Some(ViewOf(atA.chan)) != ViewOpt(NextChan(Some(LONG_CHAN), atA.fwd, KNOWN))
  {
    hide *;
    hide LONG_LINE, LONG_CHAN, KNOWN, NICKS, KEY;
    LongLineReads();
    LongNames();
    LongLineNew();
    LongLineUsers();
    LongLineUnfit();
    LongKeeps();
    LongChanOk();
    UnfitLoses(LONG_CHAN, LONG_LINE, KNOWN);
  }

  lemma LongKeeps()
    ensures Parses(LONG_LINE) && !LosesModes(Some(ViewOf(LONG_CHAN)), LONG_LINE)
  {
    LongLineReads();
    hide ParseModes, Atoi, Tokens, LineTokens, NICKS, Spaced, ViewOf, LONG_CHAN, LONG_LINE, KNOWN, ZeroModes, SentNames,
         Taken, Verdict, NothingNew, HeadOk, TheirMode;
  }

  lemma LongChanOk()
    ensures ChanOk(LONG_CHAN)
  {
    assert Middle(KEY);
  }
}
