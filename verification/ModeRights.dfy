/** Who may change a channel's modes (src/channel.c, set_channel_mode), and what an SJOIN has to do with it:
    m_sjoin marks as deopped who comes with op from a side that loses the comparison of timestamps. */
module ModeRights {
  import opened Text
  import opened Channels
  import opened Memberships
  import opened ModeChanges
  import opened ModeReplay
  import ChannelViews

  // ----- who may change modes -----

  /** Whoever may not change modes changes nothing, whatever the line says, and nothing is sent on. */
  lemma Unauthorised(src: Source, find: map<string, string>, c: Chan, words: seq<string>)
    requires words != [] && !MayChange(src, c)
    ensures var r := Change(src, find, c, words);
      r.edits == [] && LineOf(r.edits) == None && ChannelViews.ViewOf(r.chan) == ChannelViews.ViewOf(c)
  {
    hide MayChange, PowersOf, Change, ChannelViews.ViewOf;
    MayIs(src, c);
    ChangeOk(src, find, c, words);
    Refused(src, PowersOf(src, c), find, c, Change(src, find, c, words));
  }

  /** Whoever may change modes can make any list of changes that the line has room for: there is a line that
      makes exactly these. A local user is held to four changes of op and voice, and each letter once. */
  lemma Authorised(src: Source, find: map<string, string>, c: Chan, xs: seq<Edit>)
    requires MayChange(src, c) && xs != [] && Room(0, xs) && Limits(xs) <= 1
    requires src.mine ==> IsMember(c.members, src.nick) && Once(0, {}, xs)
    requires forall x <- xs :: Fits(x, src, c.members) && Findable(find, x)
    ensures SentWords(LineOf(xs).value) != []
    ensures var r := Change(src, find, c, SentWords(LineOf(xs).value));
      r.edits == xs && !r.beyond && ChannelViews.ViewOf(r.chan) == ViewAll(ChannelViews.ViewOf(c), xs)
  {
    hide MayChange, PowersOf, Change, Room, Limits, Fits, Findable, SentWords, ViewAll, ChannelViews.ViewOf,
        IsMember, Once;
    MayIs(src, c);
    Reads(src, find, c, xs);
    ChangeOk(src, find, c, SentWords(LineOf(xs).value));
  }

  /** One letter of imnpst, set or cleared: it is made exactly when the sender may change modes, a local
      user or not, and then the channel has it or not, and the line is sent on as it came. */
  lemma OneSwitch(src: Source, find: map<string, string>, c: Chan, add: bool, l: char)
    requires FlagOf(l).Some?
    ensures var sign := if add then '+' else '-';
      var r := Change(src, find, c, [[sign, l]]);
      && (r.edits == [Switch(add, l)] <==> MayChange(src, c))
      && (MayChange(src, c) ==> (FlagOf(l).value in r.chan.mode.flags <==> add))
      && (MayChange(src, c) ==> LineOf(r.edits) == Some(([sign, l], "")))
      && (forall f :: f != FlagOf(l).value ==> (f in r.chan.mode.flags <==> f in c.mode.flags))
      && r.chan.mode.limit == c.mode.limit && r.chan.mode.key == c.mode.key
  {
    var sign := if add then '+' else '-';
    var pw, words := PowersOf(src, c), [[sign, l]];
    assert words[1..] == [];
    MayIs(src, c);
    LettersApart(l);
    hide MayChange, PowersOf;
    SwitchRun(src, pw, find, Start(c, words), sign, add, l);
    hide Steps, FlagOf, EditOne;
    if pw.ok { OneLine(sign, add, l); }
    assert [] + [Switch(add, l)] == [Switch(add, l)];
    Switched(c, add, l);
  }

  lemma LettersApart(l: char)
    requires FlagOf(l).Some?
    ensures l !in "+-=ovl" && l != NUL
  {
  }

  lemma Switched(c: Chan, add: bool, l: char)
    requires FlagOf(l).Some?
    ensures var q, f := EditOne(c, Switch(add, l)), FlagOf(l).value;
      && (f in q.mode.flags <==> add) && (forall g :: g != f ==> (g in q.mode.flags <==> g in c.mode.flags))
      && q.mode.limit == c.mode.limit && q.mode.key == c.mode.key
  {
    hide FlagOf;
  }

  lemma SwitchRun(src: Source, pw: Powers, find: map<string, string>, r: State, sign: char, add: bool, l: char)
    requires FlagOf(l).Some? && l !in "+-=ovl" && sign == (if add then '+' else '-')
    requires r.curr == [sign, l] && r.args == [] && r.done == {} && r.len == 0
    ensures var q := Steps(src, pw, find, r);
      && q.edits == (if pw.ok then r.edits + [Switch(add, l)] else r.edits)
      && q.chan == (if pw.ok then EditOne(r.chan, Switch(add, l)) else r.chan)
  {
    hide EditOne, FlagOf, LimitStep, StatusStep;
    assert r.curr[1..] == [l] && [l][1..] == "";
    var p := Step(src, pw, find, r);
    assert p.curr == [l] && p.curr[0] == l && p.what == if add then Add else Del;
    var q := Step(src, pw, find, p);
    assert Steps(src, pw, find, q) == q;
  }

  lemma OneLine(sign: char, add: bool, l: char)
    requires FlagOf(l).Some? && l !in "+-=ovl" && sign == (if add then '+' else '-')
    ensures LineOf([Switch(add, l)]) == Some(([sign, l], ""))
  {
    hide FlagOf;
    var xs := [Switch(add, l)];
    assert xs[1..] == [];
    assert Spell(xs) == [sign, l];
    assert [sign, l][1..] == [l] && [l][1..] == "";
    assert CollapseFrom(sign, [l]) == [l] + "";
    assert [l] + "" == [l] && [sign] + [l] == [sign, l];
    assert Args(xs) == [];
  }

  /** A user behind a link who is no operator has changes taken here exactly when the channel has a timestamp
      and the user is not marked as deopped. */
  lemma RemoteRights(src: Source, c: Chan)
    requires src.link && !src.server && !IsOp(c, src.nick)
    ensures (exists find, words :: words != [] && Change(src, find, c, words).edits != [])
       <==> c.ts != 0 && !IsDeopped(c, src.nick)
  {
    hide Change, IsDeopped, IsOp;
    if MayChange(src, c) {
      OneSwitch(src, map[], c, true, 'm');
    } else {
      forall find, words: seq<string> | words != [] ensures Change(src, find, c, words).edits == [] {
        Unauthorised(src, find, c, words);
      }
    }
  }

  // ----- newcomers of an SJOIN -----

  /** The line's side loses: it is the younger one, and the channel is not an empty juped one. */
  predicate Loses(was: Option<Chan>, ts: int) {
    was.Some? && was.value.ts != 0 && ts != 0 && was.value.ts < ts && !(was.value.juped && was.value.members == [])
  }

  predicate Wins(was: Option<Chan>, ts: int) { was.Some? && was.value.ts != 0 && ts != 0 && ts < was.value.ts }

  predicate NamesAt(toks: seq<string>, who: map<string, string>, n: string, i: int) {
    0 <= i < |toks| && Bare(toks[i]) in who && who[Bare(toks[i])] == n
  }

  /** Token `i` is the first that names `n`. */
  predicate NamedFirst(toks: seq<string>, who: map<string, string>, n: string, i: int) {
    NamesAt(toks, who, n, i) && forall j :: 0 <= j < i ==> !NamesAt(toks, who, n, j)
  }

  /** The first two characters, where the marks are looked for. */
  function Front(tok: string): string { if |tok| <= 2 then tok else tok[..2] }

  /** The member that a token makes of `n`. */
  function Newcomer(n: string, tok: string, loses: bool): Member {
    if loses then Member(n, false, false, '@' in Front(tok)) else Member(n, '@' in Front(tok), '+' in Front(tok), false)
  }

  lemma FrontMarks(tok: string)
    ensures MarksOp(tok) <==> '@' in Front(tok)
    ensures MarksVoice(tok) <==> '+' in Front(tok)
  {
  }

  /** What the names make of `n`: a member stays as it is, anyone else is what the first token says. */
  lemma {:induction false} JoinAllAt(ms: seq<Member>, toks: seq<string>, who: map<string, string>, keepNew: bool,
      n: string)
    ensures var r := JoinAll(ms, toks, who, keepNew).members;
      && (IsMember(ms, n) ==> LinkOf(r, n) == LinkOf(ms, n))
      && (!IsMember(ms, n) ==>
            && (LinkOf(r, n).Some? <==> exists i :: NamesAt(toks, who, n, i))
            && forall i :: NamedFirst(toks, who, n, i) ==> LinkOf(r, n) == Some(Newcomer(n, toks[i], !keepNew)))
  {
    LinkOfAt(ms, n);
    if toks != [] {
      hide Bare, MarksOp, MarksVoice, Newcomer, LinkAt;
      var init, t := toks[..|toks| - 1], toks[|toks| - 1];
      JoinAllAt(ms, init, who, keepNew, n);
      var j := JoinAll(ms, init, who, keepNew);
      JoinedAt(j, t, who, keepNew, n);
      LinkOfAt(j.members, n);
      NamedSnoc(init, t, who, n);
      assert init + [t] == toks;
    }
  }

  lemma JoinedAt(j: Joined, t: string, who: map<string, string>, keepNew: bool, n: string)
    ensures var r := JoinOne(j, t, who, keepNew).members;
      LinkOf(r, n) == if Bare(t) in who && who[Bare(t)] == n && !IsMember(j.members, n)
                      then Some(Newcomer(n, t, !keepNew)) else LinkOf(j.members, n)
  {
    hide Bare;
    FrontMarks(t);
    if Bare(t) in who && !IsMember(j.members, who[Bare(t)]) {
      var r := JoinOne(j, t, who, keepNew).members;
      assert r[1..] == j.members;
    }
  }

  lemma NamedSnoc(init: seq<string>, t: string, who: map<string, string>, n: string)
    ensures var toks := init + [t];
      && (forall i :: 0 <= i < |init| ==> (NamesAt(toks, who, n, i) <==> NamesAt(init, who, n, i)))
      && (forall i :: 0 <= i < |init| ==> (NamedFirst(toks, who, n, i) <==> NamedFirst(init, who, n, i)))
      && (NamesAt(toks, who, n, |init|) <==> Bare(t) in who && who[Bare(t)] == n)
      && (NamedFirst(toks, who, n, |init|) ==> forall i :: !NamesAt(init, who, n, i))
  {
    hide Bare;
    var toks := init + [t];
    forall i | 0 <= i < |init| ensures NamesAt(toks, who, n, i) <==> NamesAt(init, who, n, i) {
      assert toks[i] == init[i];
    }
    if NamedFirst(toks, who, n, |init|) {
      forall i ensures !NamesAt(init, who, n, i) { assert 0 <= i < |init| ==> !NamesAt(toks, who, n, i); }
    }
  }

  function NamesIn(parv: seq<string>): seq<string>
    requires ChannelViews.Parses(parv)
  {
    Tokens(parv[4 + ParseModes(parv[3], parv, 0, NO_MODE).value.1])
  }

  lemma {:induction false} StrippedAt(ms: seq<Member>, n: string)
    ensures LinkOf(Stripped(ms), n)
         == if LinkOf(ms, n).Some? then Some(LinkOf(ms, n).value.(op := false, voice := false)) else None
    ensures IsMember(Stripped(ms), n) <==> IsMember(ms, n)
  {
    LinkOfAt(ms, n);
    LinkOfAt(Stripped(ms), n);
    if ms != [] {
      StrippedAt(ms[1..], n);
      assert Stripped(ms)[1..] == Stripped(ms[1..]);
    }
  }

  /** 0 if one of the two is 0, and else the line's timestamp, unless its side loses. */
  function NewTs(was: Option<Chan>, ts: int): int {
    if was.Some? && (ts == 0 || was.value.ts == 0) then 0 else if Loses(was, ts) then was.value.ts else ts
  }

  lemma Sides(was: Option<Chan>, ts: int)
    ensures var d := Decide(was, ts);
      && (d.keepNew <==> !Loses(was, ts)) && (d.keepOurs <==> !Wins(was, ts))
      && d.ts == NewTs(was, ts)
  {
  }

  /** Every link of the chain after an accepted SJOIN. Who was a member keeps its link, without op and voice
      when the line's side wins, and with its deopped mark in any case. Anyone else is a member if and only
      if a name says so, by the first that does: with its op and voice, or, when the line's side loses,
      with neither, and deopped if and only if that name came with op. */
  lemma SjoinLinks(was: Option<Chan>, parv: seq<string>, who: map<string, string>, n: string)
    requires ChannelViews.Parses(parv)
    ensures var ms, r, ts := OldChan(was).members, SJoin(was, parv, who).chan, Atoi(parv[1]);
      && r.ts == NewTs(was, ts)
      && r.juped == OldChan(was).juped
      && (IsMember(ms, n) ==>
            && LinkOf(ms, n).Some?
            && LinkOf(r.members, n) == Some(if Wins(was, ts) then LinkOf(ms, n).value.(op := false, voice := false)
                                            else LinkOf(ms, n).value))
      && (!IsMember(ms, n) ==>
            && (LinkOf(r.members, n).Some? <==> exists i :: NamesAt(NamesIn(parv), who, n, i))
            && forall i :: NamedFirst(NamesIn(parv), who, n, i) ==>
                 LinkOf(r.members, n) == Some(Newcomer(n, NamesIn(parv)[i], Loses(was, ts))))
  {
    hide ParseModes, Tokens, Atoi, JoinAll, LinkOf, IsMember, NamesAt, NamedFirst, Newcomer, Loses, Wins, Decide,
         ForwardRest, WireParv, LineSize, MergeMode, Stripped;
    var ms, d := OldChan(was).members, Decide(was, Atoi(parv[1]));
    Sides(was, Atoi(parv[1]));
    StrippedAt(ms, n);
    LinkOfAt(ms, n);
    JoinAllAt(if d.keepOurs then ms else Stripped(ms), NamesIn(parv), who, d.keepNew, n);
  }

  /** A user behind a link, as its later MODE lines come in. */
  function Behind(n: string): Source { Source(n, false, false, true) }

  /** A newcomer with op from a side that loses changes no modes afterwards, whatever it sends. */
  lemma DeoppedNewcomer(was: Option<Chan>, parv: seq<string>, who: map<string, string>, n: string, i: int,
                        find: map<string, string>, words: seq<string>)
    requires ChannelViews.Parses(parv) && Loses(was, Atoi(parv[1])) && !IsMember(OldChan(was).members, n)
    requires NamedFirst(NamesIn(parv), who, n, i) && '@' in Front(NamesIn(parv)[i]) && words != []
    ensures var c := SJoin(was, parv, who).chan;
      var r := Change(Behind(n), find, c, words);
      r.edits == [] && LineOf(r.edits) == None && ChannelViews.ViewOf(r.chan) == ChannelViews.ViewOf(c)
  {
    hide ParseModes, Tokens, Atoi, SJoin, LinkOf, IsMember, Loses, Wins, Change, ChannelViews.ViewOf,
         NamesIn, Bare;
    var c := SJoin(was, parv, who).chan;
    SjoinLinks(was, parv, who, n);
    MarkedIs(c, n, Newcomer(n, NamesIn(parv)[i], true));
    Unauthorised(Behind(n), find, c, words);
  }

  /** A newcomer without op of the same line can make any changes that a line has room for. */
  lemma PlainNewcomer(was: Option<Chan>, parv: seq<string>, who: map<string, string>, n: string, i: int,
                      find: map<string, string>, xs: seq<Edit>)
    requires ChannelViews.Parses(parv) && Loses(was, Atoi(parv[1])) && !IsMember(OldChan(was).members, n)
    requires NamedFirst(NamesIn(parv), who, n, i) && '@' !in Front(NamesIn(parv)[i])
    requires xs != [] && Room(0, xs) && Limits(xs) <= 1
    requires forall x <- xs :: Fits(x, Behind(n), SJoin(was, parv, who).chan.members) && Findable(find, x)
    ensures SentWords(LineOf(xs).value) != []
    ensures var c := SJoin(was, parv, who).chan;
      Change(Behind(n), find, c, SentWords(LineOf(xs).value)).edits == xs
  {
    hide ParseModes, Tokens, Atoi, SJoin, LinkOf, IsMember, Wins, Change, ChannelViews.ViewOf,
         NamesIn, Bare, Room, Limits, Fits, Findable, SentWords, LineOf;
    var c := SJoin(was, parv, who).chan;
    SjoinLinks(was, parv, who, n);
    MarkedIs(c, n, Newcomer(n, NamesIn(parv)[i], true));
    Authorised(Behind(n), find, c, xs);
  }

  lemma MarkedIs(c: Chan, n: string, m: Member)
    requires LinkOf(c.members, n) == Some(m)
    ensures IsOp(c, n) <==> m.op
    ensures IsDeopped(c, n) <==> m.deopped
  {
    hide LinkOf, LinkAt, IsMember;
    LinkOfAt(c.members, n);
  }

  /** The mark spreads: to whom a marked user would give op, unless that one has it. Nothing else happens. */
  lemma MarkSpreads(src: Source, find: map<string, string>, c: Chan, to: string)
    requires !src.server && !src.mine && IsDeopped(c, src.nick) && !IsOp(c, src.nick)
    requires NickText(to) && to in find && find[to] != src.nick && IsMember(c.members, find[to])
    ensures var r := Change(src, find, c, ["+o", to]);
      && r.edits == [] && r.chan.mode == c.mode
      && forall n :: LinkOf(r.chan.members, n)
           == if n == find[to] && LinkOf(c.members, n).Some? && !LinkOf(c.members, n).value.op
              then Some(LinkOf(c.members, n).value.(deopped := true)) else LinkOf(c.members, n)
  {
    MarkedPowers(src, c);
    TextIsMiddle(to);
    assert ["+o", to][1..] == [to];
    hide PowersOf, LinkOf, NickText, IsMember, CheckString;
    MarkRun(src, PowersOf(src, c), find, Start(c, ["+o", to]), to);
    forall n ensures LinkOf(DeopMarked(c.members, find[to]), n)
           == if n == find[to] && LinkOf(c.members, n).Some? && !LinkOf(c.members, n).value.op
              then Some(LinkOf(c.members, n).value.(deopped := true)) else LinkOf(c.members, n)
    {
      DeopMarkedAt(c.members, find[to], n);
    }
  }

  /** Giving and taking op and voice: only the one link changes, in the one flag, and who gets op is no longer
      marked as deopped. */
  lemma {:induction false} FlaggedAt(ms: seq<Member>, who: string, op: bool, add: bool, n: string)
    ensures var m := LinkOf(ms, n);
      LinkOf(Flagged(ms, who, op, add), n)
      == if n != who || m.None? then m
         else if op then Some(m.value.(op := add, deopped := if add then false else m.value.deopped))
         else Some(m.value.(voice := add))
  {
    if ms != [] {
      FlaggedAt(ms[1..], who, op, add, n);
      assert Flagged(ms, who, op, add)[1..] == Flagged(ms[1..], who, op, add);
    }
  }

  lemma MarkedPowers(src: Source, c: Chan)
    requires !src.server && IsDeopped(c, src.nick) && !IsOp(c, src.nick)
    ensures PowersOf(src, c) == Powers(false, true)
  {
    hide LinkOf, LinkAt, IsMember;
    LinkOfAt(c.members, src.nick);
  }

  lemma MarkRun(src: Source, pw: Powers, find: map<string, string>, r: State, to: string)
    requires !src.server && !src.mine && pw == Powers(false, true) && CheckString(to) == to
    requires to in find && find[to] != src.nick && IsMember(r.chan.members, find[to])
    requires r.curr == "+o" && r.args == [to]
    ensures var q := Steps(src, pw, find, r);
      q.edits == r.edits && q.chan == r.chan.(members := DeopMarked(r.chan.members, find[to]))
  {
    hide EditOne, FlagOf, LimitStep, IsMember, DeopMarked, CheckString;
    assert "+o"[1..] == "o" && "o"[1..] == "" && [to][1..] == [];
    var p := Step(src, pw, find, r);
    var q := Step(src, pw, find, p);
    assert Steps(src, pw, find, q) == q;
  }

  lemma {:induction false} DeopMarkedAt(ms: seq<Member>, who: string, n: string)
    ensures LinkOf(DeopMarked(ms, who), n)
         == if n == who && LinkOf(ms, n).Some? && !LinkOf(ms, n).value.op
            then Some(LinkOf(ms, n).value.(deopped := true)) else LinkOf(ms, n)
  {
    if ms != [] {
      DeopMarkedAt(ms[1..], who, n);
      assert DeopMarked(ms, who)[1..] == DeopMarked(ms[1..], who);
    }
  }
}
