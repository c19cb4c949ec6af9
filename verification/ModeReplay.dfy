/** A MODE line that one server sends on, at the servers that receive it: whoever agreed about
    the channel before the change agrees after it. */
module ModeReplay {
  import opened Text
  import opened Channels
  import opened Memberships
  import opened ModeChanges
  import ChannelViews

  // ----- changes as functions on what servers agree about -----

  type View = ChannelViews.View

  function Regraded(s: ChannelViews.Status, op: bool, add: bool): ChannelViews.Status {
    if op then s.(op := add) else s.(voice := add)
  }

  function ViewOne(v: View, x: Edit): View {
    match x
    case Status(add, op, who) =>
      if who in v.status then v.(status := v.status[who := Regraded(v.status[who], op, add)]) else v
    case SetLimit(n) => v.(mode := v.mode.(limit := n))
    case NoLimit => v.(mode := v.mode.(limit := 0))
    case Switch(add, l) =>
      var f := if FlagOf(l).Some? then {FlagOf(l).value} else {};
      v.(mode := v.mode.(flags := if add then v.mode.flags + f else v.mode.flags - f))
  }

  function ViewAll(v: View, xs: seq<Edit>): View {
    if xs == [] then v else ViewOne(ViewAll(v, xs[..|xs| - 1]), xs[|xs| - 1])
  }

  lemma ViewAdds(v: View, xs: seq<Edit>, x: Edit)
    ensures ViewAll(v, xs + [x]) == ViewOne(ViewAll(v, xs), x)
  {
    assert (xs + [x])[..|xs|] == xs;
  }

  lemma {:induction false} StatusFlagged(ms: seq<Member>, who: string, op: bool, add: bool)
    ensures var st, r := ChannelViews.StatusOf(ms), ChannelViews.StatusOf(Flagged(ms, who, op, add));
      r == if who in st then st[who := Regraded(st[who], op, add)] else st
  {
    hide Flagged;
    if ms == [] {
      NoneFlagged(who, op, add);
    } else {
      var m := ms[0];
      StatusFlagged(ms[1..], who, op, add);
      FlaggedStep(ms, who, op, add);
      var st, rest := ChannelViews.StatusOf(ms), ChannelViews.StatusOf(ms[1..]);
      if m.nick != who && who in rest {
        assert rest[who := Regraded(rest[who], op, add)][m.nick := ChannelViews.Status(m.op, m.voice)]
            == rest[m.nick := ChannelViews.Status(m.op, m.voice)][who := Regraded(rest[who], op, add)];
      } else if m.nick == who && who in rest {
        var x := Regraded(ChannelViews.Status(m.op, m.voice), op, add);
        assert rest[who := Regraded(rest[who], op, add)][who := x] == rest[who := x];
      }
    }
  }

  lemma NoneFlagged(who: string, op: bool, add: bool)
    ensures Flagged([], who, op, add) == []
  {
  }

  lemma FlaggedStep(ms: seq<Member>, who: string, op: bool, add: bool)
    requires ms != []
    ensures var r := Flagged(ms, who, op, add);
      && |r| == |ms| && r[1..] == Flagged(ms[1..], who, op, add) && r[0].nick == ms[0].nick
      && (ms[0].nick != who ==> r[0] == ms[0])
      && (ms[0].nick == who ==>
            ChannelViews.Status(r[0].op, r[0].voice) == Regraded(ChannelViews.Status(ms[0].op, ms[0].voice), op, add))
  {
  }

  lemma {:induction false} StatusMarked(ms: seq<Member>, who: string)
    ensures ChannelViews.StatusOf(DeopMarked(ms, who)) == ChannelViews.StatusOf(ms)
  {
    if ms != [] {
      StatusMarked(ms[1..], who);
      assert DeopMarked(ms, who)[1..] == DeopMarked(ms[1..], who);
    }
  }

  lemma EditIsView(c: Chan, x: Edit)
    ensures ChannelViews.ViewOf(EditOne(c, x)) == ViewOne(ChannelViews.ViewOf(c), x)
  {
    hide Flagged, ChannelViews.StatusOf;
    if x.Status? {
      StatusFlagged(c.members, x.who, x.op, x.add);
    } else {
      assert ChannelViews.Carried(EditOne(c, x).mode) == ViewOne(ChannelViews.ViewOf(c), x).mode by {
        ModeIsView(c, x);
      }
    }
  }

  lemma ModeIsView(c: Chan, x: Edit)
    requires !x.Status?
    ensures ChannelViews.Carried(EditOne(c, x).mode).flags == ViewOne(ChannelViews.ViewOf(c), x).mode.flags
  {
    hide ChannelViews.StatusOf;
    match x
    case SetLimit(_) => assert c.mode.flags + {Limit} - {Limit} == c.mode.flags - {Limit};
    case NoLimit => assert c.mode.flags - {Limit} - {Limit} == c.mode.flags - {Limit};
    case Switch(add, l) =>
      if FlagOf(l).Some? {
        var f := FlagOf(l).value;
        assert f != Limit;
        assert (c.mode.flags + {f}) - {Limit} == (c.mode.flags - {Limit}) + {f};
        assert (c.mode.flags - {f}) - {Limit} == (c.mode.flags - {Limit}) - {f};
      } else {
        assert c.mode.flags + {} == c.mode.flags - {} == c.mode.flags;
      }
  }

  lemma EditKeepsMembers(c: Chan, x: Edit, n: string)
    ensures IsMember(EditOne(c, x).members, n) <==> IsMember(c.members, n)
  {
    if x.Status? {
      var ms := EditOne(c, x).members;
      NicksAre(ms, n);
      NicksAre(c.members, n);
    }
  }

  lemma NicksAre(ms: seq<Member>, n: string)
    ensures IsMember(ms, n) <==> n in Nicks(ms)
  {
    if IsMember(ms, n) {
      var i :| 0 <= i < |ms| && ms[i].nick == n;
      assert Nicks(ms)[i] == n;
    }
  }

  lemma MarkKeepsMembers(ms: seq<Member>, who: string, n: string)
    ensures IsMember(DeopMarked(ms, who), n) <==> IsMember(ms, n)
  {
    hide DeopMarked;
    NicksAre(ms, n);
    NicksAre(DeopMarked(ms, who), n);
  }

  /** Agreement on the channel is agreement on who is op in it. */
  lemma {:induction false} LinkIsStatus(ms: seq<Member>, n: string)
    ensures LinkOf(ms, n).Some? <==> n in ChannelViews.StatusOf(ms)
    ensures n in ChannelViews.StatusOf(ms) ==> ChannelViews.StatusOf(ms)[n].op == LinkOf(ms, n).value.op
  {
    if ms != [] { LinkIsStatus(ms[1..], n); }
  }

  // ----- text -----

  /** A nickname: one parameter, no white space. */
  predicate NickText(n: string) { Middle(n) && forall c <- n :: !IsSpace(c) }

  lemma {:induction false} UnspacedAll(s: string)
    requires forall c <- s :: !IsSpace(c)
    ensures Unspaced(s) == s
  {
    if s != "" {
      UnspacedAll(s[1..]);
      assert s == [s[0]] + s[1..];
    }
  }

  lemma LimitText(n: int)
    requires 0 < n <= INT_MAX
    ensures NickText(Decimal(n)) && IntOf(CheckString(Decimal(n))) == n && |Decimal(n)| <= 10
  {
    var s := Decimal(n);
    AtoiDecimal(n);
    UnspacedAll(s);
    LargePowers();
    DigitsLength(n, 10);
  }

  lemma {:induction false} ParamsOfSpaced(ts: seq<string>)
    requires forall t <- ts :: Middle(t)
    ensures Params(Spaced(ts)) == ts
  {
    if ts != [] {
      var rest := Spaced(ts[1..]);
      assert Spaced(ts) == ts[0] + (" " + rest);
      ParamsCons(ts[0], " " + rest);
      assert (" " + rest)[1..] == rest;
      ParamsOfSpaced(ts[1..]);
    }
  }

  /** The parameters that follow the channel in the line that is sent on. */
  function SentWords(line: (string, string)): seq<string> { Params(line.0 + " " + line.1) }

  lemma {:induction false} CollapseStarts(plus: char, xs: seq<Edit>)
    requires (forall x <- xs :: Known(x)) && (plus == NUL || IsSign(plus))
    ensures ' ' !in CollapseFrom(plus, Spell(xs)) && ':' !in CollapseFrom(plus, Spell(xs))
    ensures xs != [] ==> CollapseFrom(plus, Spell(xs)) != ""
    decreases |xs|
  {
    if xs != [] {
      hide Known;
      SpellStep(plus, xs);
      LetterIsLetter(xs[0]);
      CollapseStarts(SignOf(xs[0]), xs[1..]);
    }
  }

  /** An edit that has a letter. */
  predicate Known(x: Edit) { x.Switch? ==> FlagOf(x.letter).Some? }

  lemma LetterIsLetter(x: Edit)
    requires Known(x)
    ensures IsSign(SignOf(x)) && !IsSign(LetterOf(x)) && LetterOf(x) !in [NUL, '=', ' ', ':']
  {
  }

  lemma SpellStep(plus: char, xs: seq<Edit>)
    requires xs != [] && Known(xs[0])
    ensures CollapseFrom(plus, Spell(xs))
         == (if SignOf(xs[0]) != plus then [SignOf(xs[0])] else "")
             + ([LetterOf(xs[0])] + CollapseFrom(SignOf(xs[0]), Spell(xs[1..])))
  {
    hide Spell, CollapseFrom, SignOf, LetterOf;
    var x, t := xs[0], Spell(xs[1..]);
    LetterIsLetter(x);
    var s := Spell(xs);
    assert s == [SignOf(x), LetterOf(x)] + t by { SpellCons(xs); }
    CollapseStep(plus, s);
    assert s[1..] == [LetterOf(x)] + t;
    CollapseStep(SignOf(x), s[1..]);
    assert s[1..][1..] == t;
    assert "" + CollapseFrom(SignOf(x), t) == CollapseFrom(SignOf(x), t);
  }

  lemma SpellCons(xs: seq<Edit>)
    requires xs != []
    ensures Spell(xs) == [SignOf(xs[0]), LetterOf(xs[0])] + Spell(xs[1..])
  {
  }

  lemma {:induction false} ArgsAreText(xs: seq<Edit>)
    requires forall x <- xs :: (x.Status? ==> NickText(x.who)) && (x.SetLimit? ==> 0 < x.limit <= INT_MAX)
    ensures forall a <- Args(xs) :: Middle(a)
  {
    hide NickText;
    if xs != [] {
      ArgsAreText(xs[1..]);
      if xs[0].SetLimit? { LimitText(xs[0].limit); }
      assert forall s | NickText(s) :: Middle(s) by { forall s | NickText(s) ensures Middle(s) { TextIsMiddle(s); } }
    }
  }

  lemma TextIsMiddle(n: string)
    requires NickText(n)
    ensures Middle(n) && CheckString(n) == n
  {
    UnspacedAll(n);
  }

  /** What a server reads is what the other one wrote. */
  lemma SentWordsAre(xs: seq<Edit>)
    requires xs != [] && forall x <- xs :: Known(x)
    requires forall x <- xs :: (x.Status? ==> NickText(x.who)) && (x.SetLimit? ==> 0 < x.limit <= INT_MAX)
    ensures SentWords(LineOf(xs).value) == [Collapse(Spell(xs))] + Args(xs)
  {
    hide Args, Spell, Known, NickText, CollapseFrom;
    ArgsAreText(xs);
    CollapseStarts(NUL, xs);
    var w := Collapse(Spell(xs));
    var ts := [w] + Args(xs);
    assert ts[1..] == Args(xs);
    assert Spaced(ts) == w + " " + Spaced(Args(xs));
    ParamsOfSpaced(ts);
  }

  // ----- the receiving server -----

  function CostOf(x: Edit): nat {
    match x
    case Status(_, _, who) => |who| + 1
    case SetLimit(n) => |Decimal(n)| + 1
    case NoLimit => 0
    case Switch(_, _) => 2
  }

  function Cost(xs: seq<Edit>): nat { if xs == [] then 0 else CostOf(xs[0]) + Cost(xs[1..]) }

  /** The length check before a change; clearing the limit has none. */
  predicate HasRoom(len: nat, x: Edit) {
    x.NoLimit? || len + CostOf(x) <= if x.Switch? then MODEBUFLEN - 1 else MODEBUFLEN - 2
  }

  predicate Room(len: nat, xs: seq<Edit>)
    decreases |xs|
  {
    xs == [] || (HasRoom(len, xs[0]) && Room(len + CostOf(xs[0]), xs[1..]))
  }

  lemma {:induction false} RoomAdds(len: nat, xs: seq<Edit>, x: Edit)
    requires Room(len, xs) && HasRoom(len + Cost(xs), x)
    ensures Room(len, xs + [x])
    decreases |xs|
  {
    hide CostOf;
    if xs == [] {
      assert ([] + [x])[1..] == [];
    } else {
      assert (xs + [x])[1..] == xs[1..] + [x];
      RoomAdds(len + CostOf(xs[0]), xs[1..], x);
    }
  }

  lemma {:induction false} RoomEnough(len: nat, xs: seq<Edit>)
    requires len + Cost(xs) <= MODEBUFLEN - 2
    ensures Room(len, xs)
    decreases |xs|
  {
    hide CostOf;
    if xs != [] { RoomEnough(len + CostOf(xs[0]), xs[1..]); }
  }

  lemma {:induction false} CostAdds(xs: seq<Edit>, x: Edit)
    ensures Cost(xs + [x]) == Cost(xs) + CostOf(x) && Limits(xs + [x]) == Limits(xs) + LimitsOf(x)
  {
    hide CostOf, LimitsOf;
    if xs == [] {
      assert ([] + [x])[1..] == [];
    } else {
      assert (xs + [x])[1..] == xs[1..] + [x];
      CostAdds(xs[1..], x);
    }
  }

  function LimitsOf(x: Edit): nat { if x.SetLimit? || x.NoLimit? then 1 else 0 }

  function Limits(xs: seq<Edit>): nat { if xs == [] then 0 else LimitsOf(xs[0]) + Limits(xs[1..]) }

  /** A change that a server with this sender and these members can make. */
  predicate Fits(x: Edit, src: Source, ms: seq<Member>) {
    match x
    case Status(add, op, who) => IsMember(ms, who) && !(who == src.nick && op && add) && !(src.server && add)
    case SetLimit(n) => 0 < n <= INT_MAX
    case NoLimit => true
    case Switch(_, l) => FlagOf(l).Some?
  }

  predicate Findable(find: map<string, string>, x: Edit) {
    x.Status? ==> NickText(x.who) && x.who in find && find[x.who] == x.who
  }

  predicate SignNow(plus: char, what: Sign) {
    plus == NUL || (plus == '+' && what.Add?) || (plus == '-' && what.Del?)
  }

  function SignRead(c: char): Sign { if c == '+' then Add else Del }

  /** What is left of a line before its changes `rest` are made. */
  ghost predicate Pending(r: State, rest: seq<Edit>, plus: char) {
    r.curr == CollapseFrom(plus, Spell(rest)) && r.args == Args(rest) && SignNow(plus, r.what) && !r.beyond
  }

  /** The sign is read, if one is there. */
  lemma ReadsSign(src: Source, pw: Powers, find: map<string, string>, r: State, rest: seq<Edit>, plus: char)
    returns (q: State)
    requires Pending(r, rest, plus) && rest != [] && Known(rest[0])
    ensures Steps(src, pw, find, r) == Steps(src, pw, find, q)
    ensures q == r.(what := SignRead(SignOf(rest[0])),
                    curr := [LetterOf(rest[0])] + CollapseFrom(SignOf(rest[0]), Spell(rest[1..])))
  {
    hide Spell, Args, CollapseFrom, StatusStep, LimitStep, SwitchStep, FlagOf, LetterOf;
    var s := SignOf(rest[0]);
    var tail := [LetterOf(rest[0])] + CollapseFrom(s, Spell(rest[1..]));
    SpellStep(plus, rest);
    q := r;
    if s != plus {
      assert r.curr == [s] + tail;
      assert r.curr[1..] == tail;
      q := Step(src, pw, find, r);
    } else {
      assert r.curr == "" + tail == tail;
    }
  }

  /** What a local user is held to in one line: at most four changes of op or voice, and each of the letters
      imnpst once. */
  predicate Once(ops: nat, done: set<char>, xs: seq<Edit>)
    decreases |xs|
  {
    xs == [] || (OnceMore(ops, done, xs[0])
                 && Once(if xs[0].Status? then ops + 1 else ops, if xs[0].Switch? then done + {xs[0].letter} else done,
                         xs[1..]))
  }

  predicate OnceMore(ops: nat, done: set<char>, x: Edit) {
    (x.Status? ==> ops < MAXMODEPARAMS) && (x.Switch? ==> x.letter !in done)
  }

  lemma GivesStatus(src: Source, pw: Powers, find: map<string, string>, r: State, x: Edit, args: seq<string>)
    requires src.mine ==> IsMember(r.chan.members, src.nick) && r.ops < MAXMODEPARAMS
    requires pw == Powers(true, false) && x.Status? && Fits(x, src, r.chan.members) && Findable(find, x)
    requires r.args == [x.who] + args && r.what == SignRead(SignOf(x)) && HasRoom(r.len, x)
    ensures StatusStep(src, pw, find, r, x.op)
         == r.(args := args, chan := EditOne(r.chan, x), edits := r.edits + [x],
               len := r.len + CostOf(x), ops := r.ops + 1)
  {
    hide EditOne, IsMember, CheckString, NickText;
    TextIsMiddle(x.who);
    assert r.args[0] == x.who && r.args[1..] == args;
  }

  /** The letter is read and its change made. */
  lemma MakesEdit(src: Source, pw: Powers, find: map<string, string>, r: State, x: Edit, tail: string,
      args: seq<string>)
    requires src.mine ==> IsMember(r.chan.members, src.nick) && OnceMore(r.ops, r.done, x)
    requires pw == Powers(true, false) && Fits(x, src, r.chan.members) && Findable(find, x)
    requires r.curr == [LetterOf(x)] + tail && r.args == ArgsOf(x) + args && r.what == SignRead(SignOf(x))
    requires HasRoom(r.len, x) && r.limits + LimitsOf(x) <= 1
    ensures var q := Step(src, pw, find, r);
      && q.curr == tail && q.args == args && q.what == r.what && q.beyond == r.beyond
          && q.limits == r.limits + LimitsOf(x)
      && q.ops == (if x.Status? then r.ops + 1 else r.ops)
      && (src.mine ==> q.done == if x.Switch? then r.done + {x.letter} else r.done)
      && q.len == r.len + CostOf(x) && q.edits == r.edits + [x] && q.chan == EditOne(r.chan, x)
  {
    assert r.curr[1..] == tail;
    var p := r.(curr := tail);
    hide EditOne, IsMember, NickText, StatusStep, LimitStep, SwitchStep, HasRoom, OnceMore;
    if x.Status? {
      GivesStatus(src, pw, find, p, x, args);
    } else if x.SetLimit? || x.NoLimit? {
      MakesLimit(src, pw, p, x, args);
    } else {
      MakesSwitch(src, pw, p, x, args);
      LetterIsLetter(x);
    }
  }

  lemma MakesLimit(src: Source, pw: Powers, r: State, x: Edit, args: seq<string>)
    requires pw == Powers(true, false) && (x.SetLimit? || x.NoLimit?) && Fits(x, src, r.chan.members)
    requires r.args == ArgsOf(x) + args && r.what == SignRead(SignOf(x)) && HasRoom(r.len, x) && r.limits == 0
    ensures LimitStep(pw, r)
         == r.(args := args, limits := 1, chan := EditOne(r.chan, x), edits := r.edits + [x], len := r.len + CostOf(x))
  {
    hide EditOne, CheckString, Decimal, IntOf;
    if x.SetLimit? {
      LimitText(x.limit);
      assert r.args[0] == Decimal(x.limit) && r.args[1..] == args;
    } else {
      assert r.args == args;
    }
  }

  lemma MakesSwitch(src: Source, pw: Powers, r: State, x: Edit, args: seq<string>)
    requires pw == Powers(true, false) && x.Switch? && r.args == ArgsOf(x) + args && r.what == SignRead(SignOf(x))
    requires HasRoom(r.len, x) && (src.mine ==> x.letter !in r.done)
    ensures SwitchStep(src, pw, r, x.letter)
         == r.(args := args, chan := EditOne(r.chan, x), edits := r.edits + [x], len := r.len + CostOf(x),
               done := if src.mine then r.done + {x.letter} else r.done)
  {
    hide EditOne;
    assert r.args == args;
  }

  lemma FitsOn(x: Edit, y: Edit, src: Source, c: Chan)
    requires Fits(y, src, c.members)
    ensures Fits(y, src, EditOne(c, x).members)
  {
    hide IsMember, EditOne;
    if y.Status? { EditKeepsMembers(c, x, y.who); }
  }

  lemma {:induction false} Replayed(src: Source, pw: Powers, find: map<string, string>, r: State, rest: seq<Edit>,
      plus: char)
    requires src.mine ==> IsMember(r.chan.members, src.nick) && Once(r.ops, r.done, rest)
    requires pw == Powers(true, false) && Pending(r, rest, plus)
    requires forall x <- rest :: Fits(x, src, r.chan.members) && Findable(find, x)
    requires Room(r.len, rest) && r.limits + Limits(rest) <= 1
    ensures Steps(src, pw, find, r).edits == r.edits + rest && !Steps(src, pw, find, r).beyond
    decreases |rest|
  {
    hide Spell, CollapseFrom, Fits, Findable, EditOne, CostOf, LimitsOf, Step, ArgsOf, LetterOf, SignOf, IsMember,
        OnceMore;
    if rest == [] {
      Finished(src, pw, find, r, plus);
    } else {
      var x := rest[0];
      FitsIsKnown(x, src, r.chan.members);
      var q := ReadsSign(src, pw, find, r, rest, plus);
      var tail := CollapseFrom(SignOf(x), Spell(rest[1..]));
      MakesEdit(src, pw, find, q, x, tail, Args(rest[1..]));
      var p := Step(src, pw, find, q);
      assert Steps(src, pw, find, q) == Steps(src, pw, find, p);
      forall y | y in rest[1..] ensures Fits(y, src, p.chan.members) && Findable(find, y) { FitsOn(x, y, src, r.chan); }
      assert SignNow(SignOf(x), p.what) by { SignIsRead(x); }
      if src.mine { EditKeepsMembers(q.chan, x, src.nick); }
      Replayed(src, pw, find, p, rest[1..], SignOf(x));
      assert r.edits + rest == (r.edits + [x]) + rest[1..];
    }
  }

  lemma SignIsRead(x: Edit)
    ensures SignNow(SignOf(x), SignRead(SignOf(x)))
  {
  }

  lemma FitsIsKnown(x: Edit, src: Source, ms: seq<Member>)
    requires Fits(x, src, ms)
    ensures Known(x)
  {
  }

  lemma Finished(src: Source, pw: Powers, find: map<string, string>, r: State, plus: char)
    requires Pending(r, [], plus)
    ensures Steps(src, pw, find, r) == r
  {
    assert Spell([]) == "" && Args([]) == [];
  }

  // ----- what holds in every run -----

  const SWITCHES := {'i', 'm', 'n', 'p', 's', 't'}

  /** Nicknames are told apart but not lengthened by looking them up. */
  predicate SameLengths(find: map<string, string>) { forall a <- find :: |find[a]| == |a| }

  ghost predicate ShortNicks(c: Chan) { forall n :: IsMember(c.members, n) ==> |n| <= NICKLEN }

  function Budget(ops: nat, done: set<char>, limits: nat): nat { ops * (NICKLEN + 1) + 2 * |done| + 11 * limits }

  ghost predicate RunOk(src: Source, pw: Powers, find: map<string, string>, c0: Chan, r: State) {
    && ChannelViews.ViewOf(r.chan) == ViewAll(ChannelViews.ViewOf(c0), r.edits)
    && SameMembers(r.chan, c0)
    && (forall x <- r.edits :: Fits(x, src, c0.members))
    && (r.edits != [] ==> pw.ok)
    && Limits(r.edits) <= 1 && Limits(r.edits) <= r.limits
    && (SameLengths(find) ==> Cost(r.edits) == r.len && Room(0, r.edits))
    && CountOk(find, r) && (src.mine ==> Bounded(c0, r))
  }

  /** `len` bounds the number of changes, except that clearing the limit is not counted in it. */
  predicate CountOk(find: map<string, string>, r: State) {
    r.len < MODEBUFLEN && ("" !in find ==> 2 * |r.edits| <= r.len + 2 * Clears(r.edits))
  }

  function Clears(xs: seq<Edit>): nat { if xs == [] then 0 else Clears(xs[1..]) + if xs[0].NoLimit? then 1 else 0 }

  lemma {:induction false} ClearsAdds(xs: seq<Edit>, x: Edit)
    ensures Clears(xs + [x]) == Clears(xs) + if x.NoLimit? then 1 else 0
  {
    if xs == [] {
      assert ([] + [x])[1..] == [];
    } else {
      assert (xs + [x])[1..] == xs[1..] + [x];
      ClearsAdds(xs[1..], x);
    }
  }

  lemma {:induction false} ClearsIs(xs: seq<Edit>)
    ensures Clears(xs) <= Limits(xs) && (Clears(xs) > 0 <==> NoLimit in xs)
  {
    if xs != [] {
      ClearsIs(xs[1..]);
      assert xs == [xs[0]] + xs[1..];
    }
  }

  ghost predicate Bounded(c0: Chan, r: State) {
    && r.ops <= MAXMODEPARAMS && r.done <= SWITCHES && |r.edits| <= r.ops + |r.done| + Limits(r.edits)
    && (ShortNicks(c0) ==> Cost(r.edits) <= Budget(r.ops, r.done, Limits(r.edits)))
  }

  ghost predicate SameMembers(a: Chan, b: Chan) { forall n :: IsMember(a.members, n) <==> IsMember(b.members, n) }

  /** A run goes on well when it makes no change to the channel. */
  lemma NoEdit(src: Source, pw: Powers, find: map<string, string>, c0: Chan, r: State, q: State)
    requires RunOk(src, pw, find, c0, r) && q.edits == r.edits && q.chan == r.chan && q.len == r.len
        && q.limits >= r.limits
    requires src.mine ==> q.ops == r.ops && r.done <= q.done <= SWITCHES
    ensures RunOk(src, pw, find, c0, q)
  {
    hide ChannelViews.ViewOf, ViewAll, Fits, Limits, Cost, Room, SameMembers, SameLengths, ShortNicks;
    if src.mine { Larger(r.done, q.done); }
  }

  lemma Larger(a: set<char>, b: set<char>)
    requires a <= b
    ensures |a| <= |b|
  {
    assert b == a + (b - a);
  }

  /** A run goes on well with one more change. */
  lemma OneEdit(src: Source, pw: Powers, find: map<string, string>, c0: Chan, r: State, x: Edit, q: State)
    requires RunOk(src, pw, find, c0, r) && pw.ok && q.edits == r.edits + [x] && q.chan == EditOne(r.chan, x)
    requires Fits(x, src, r.chan.members) && (LimitsOf(x) > 0 ==> r.limits == 0) && q.limits == r.limits + LimitsOf(x)
    requires SameLengths(find) ==> q.len == r.len + CostOf(x) && HasRoom(r.len, x)
    requires q.len < MODEBUFLEN && q.len >= r.len && ("" !in find && !x.NoLimit? ==> q.len >= r.len + 2)
    requires src.mine ==> q.ops <= MAXMODEPARAMS && q.done <= SWITCHES
    requires src.mine ==> q.ops == r.ops + (if x.Status? then 1 else 0)
    requires src.mine ==> |q.done| == |r.done| + (if x.Switch? then 1 else 0)
    ensures RunOk(src, pw, find, c0, q)
  {
    hide ChannelViews.ViewOf, ViewAll, ViewOne, EditOne, Fits, SameMembers, SameLengths, Room, HasRoom, Cost,
        Limits, CostOf,
         LimitsOf, Bounded, IsMember, Clears;
    ViewAdds(ChannelViews.ViewOf(c0), r.edits, x);
    EditIsView(r.chan, x);
    SameAfter(r.chan, c0, x);
    CostAdds(r.edits, x);
    ClearsAdds(r.edits, x);
    FitsThere(x, src, r.chan, c0);
    LimitsAre(x);
    if SameLengths(find) { RoomAdds(0, r.edits, x); }
    if src.mine { StillBounded(src, c0, r, x, q); }
  }

  lemma LimitsAre(x: Edit)
    ensures LimitsOf(x) <= 1
  {
  }

  lemma SameAfter(a: Chan, b: Chan, x: Edit)
    requires SameMembers(a, b)
    ensures SameMembers(EditOne(a, x), b)
  {
    hide IsMember, EditOne;
    forall n ensures IsMember(EditOne(a, x).members, n) <==> IsMember(b.members, n) { EditKeepsMembers(a, x, n); }
  }

  lemma FitsThere(x: Edit, src: Source, a: Chan, b: Chan)
    requires Fits(x, src, a.members) && SameMembers(a, b)
    ensures Fits(x, src, b.members)
  {
    hide IsMember;
  }

  lemma StillBounded(src: Source, c0: Chan, r: State, x: Edit, q: State)
    requires Bounded(c0, r) && q.edits == r.edits + [x] && Fits(x, src, c0.members)
    requires q.ops <= MAXMODEPARAMS && q.done <= SWITCHES && q.ops == r.ops + (if x.Status? then 1 else 0)
    requires |q.done| == |r.done| + (if x.Switch? then 1 else 0)
    ensures Bounded(c0, q)
  {
    hide Cost, Limits, IsMember, Decimal;
    CostAdds(r.edits, x);
    if x.SetLimit? { LimitText(x.limit); }
  }

  lemma StatusKeeps(src: Source, pw: Powers, find: map<string, string>, c0: Chan, r: State, op: bool, add: bool,
      arg: string)
    requires RunOk(src, pw, find, c0, r) && !(pw.ok && pw.deop)
    ensures RunOk(src, pw, find, c0, StatusArg(src, pw, find, r, op, add, arg))
  {
    hide RunOk, EditOne, IsMember, SameLengths, DeopMarked, LimitsOf, CountOk;
    var q := StatusArg(src, pw, find, r, op, add, arg);
    if arg in find && q.edits == r.edits && q.chan != r.chan {
      MarkKeeps(src, pw, find, c0, r, find[arg]);
    } else if q == r {
    } else {
      var x := Status(add, op, find[arg]);
      RunFacts(src, pw, find, c0, r);
      LimitsOfStatus(x);
      if SameLengths(find) { SameLength(find, arg); }
      if q.edits != r.edits { OneEdit(src, pw, find, c0, r, x, q); }
    }
  }

  lemma LimitsOfStatus(x: Edit)
    ensures x.Status? || x.Switch? ==> LimitsOf(x) == 0
  {
  }

  lemma SameLength(find: map<string, string>, a: string)
    requires SameLengths(find) && a in find
    ensures |find[a]| == |a|
  {
  }

  lemma RunFacts(src: Source, pw: Powers, find: map<string, string>, c0: Chan, r: State)
    requires RunOk(src, pw, find, c0, r)
    ensures src.mine ==> r.ops <= MAXMODEPARAMS && r.done <= SWITCHES
    ensures r.len < MODEBUFLEN
  {
  }

  lemma MarkKeeps(src: Source, pw: Powers, find: map<string, string>, c0: Chan, r: State, who: string)
    requires RunOk(src, pw, find, c0, r)
    ensures RunOk(src, pw, find, c0, r.(chan := r.chan.(members := DeopMarked(r.chan.members, who))))
  {
    hide ViewAll, Fits, SameLengths, Room, Cost, Limits, Bounded, IsMember, DeopMarked;
    StatusMarked(r.chan.members, who);
    forall n ensures IsMember(DeopMarked(r.chan.members, who), n) <==> IsMember(c0.members, n) {
      MarkKeepsMembers(r.chan.members, who, n);
    }
    BoundedOnly(c0, r, r.(chan := r.chan.(members := DeopMarked(r.chan.members, who))));
  }

  lemma BoundedOnly(c0: Chan, r: State, q: State)
    requires q.ops == r.ops && q.done == r.done && q.edits == r.edits
    ensures Bounded(c0, r) ==> Bounded(c0, q)
  {
  }

  lemma LimitKeeps(src: Source, pw: Powers, find: map<string, string>, c0: Chan, r: State)
    requires RunOk(src, pw, find, c0, r)
    ensures RunOk(src, pw, find, c0, LimitStep(pw, r))
  {
    hide RunOk, EditOne, SameLengths, CheckString, IntOf, Decimal, IsMember;
    var q := LimitStep(pw, r);
    RunFacts(src, pw, find, c0, r);
    if q.edits == r.edits {
      NoEdit(src, pw, find, c0, r, q);
    } else {
      var x := q.edits[|r.edits|];
      OneEdit(src, pw, find, c0, r, x, q);
    }
  }

  lemma SwitchKeeps(src: Source, pw: Powers, find: map<string, string>, c0: Chan, r: State, c: char)
    requires RunOk(src, pw, find, c0, r) && FlagOf(c).Some?
    ensures RunOk(src, pw, find, c0, SwitchStep(src, pw, r, c))
  {
    assert c in SWITCHES;
    hide RunOk, EditOne, SameLengths, IsMember;
    var q := SwitchStep(src, pw, r, c);
    RunFacts(src, pw, find, c0, r);
    if q.edits == r.edits {
      NoEdit(src, pw, find, c0, r, q);
    } else {
      OneEdit(src, pw, find, c0, r, Switch(r.what.Add?, c), q);
    }
  }

  lemma StepKeeps(src: Source, pw: Powers, find: map<string, string>, c0: Chan, r: State)
    requires RunOk(src, pw, find, c0, r) && !(pw.ok && pw.deop) && (r.curr != "" || r.args != [])
    ensures RunOk(src, pw, find, c0, Step(src, pw, find, r))
  {
    hide RunOk, StatusArg, LimitStep, SwitchStep, FlagOf, IsMember, CheckString;
    RunFacts(src, pw, find, c0, r);
    var q := Step(src, pw, find, r);
    if r.curr == "" {
      NoEdit(src, pw, find, c0, r, q);
    } else {
      var c, p := r.curr[0], r.(curr := r.curr[1..]);
      NoEdit(src, pw, find, c0, r, p);
      if c == 'o' || c == 'v' {
        NoEdit(src, pw, find, c0, r, Eat(p));
        if p.args != [] { StatusKeeps(src, pw, find, c0, Eat(p), c == 'o', p.what.Add?, CheckString(p.args[0])); }
      } else if c == 'l' {
        LimitKeeps(src, pw, find, c0, p);
      } else if FlagOf(c).Some? {
        if c !in "+-=" { SwitchKeeps(src, pw, find, c0, p, c); } else { NoEdit(src, pw, find, c0, r, q); }
      } else {
        NoEdit(src, pw, find, c0, r, q);
      }
    }
  }

  lemma {:induction false} RunKeeps(src: Source, pw: Powers, find: map<string, string>, c0: Chan, r: State)
    requires RunOk(src, pw, find, c0, r) && !(pw.ok && pw.deop)
    ensures RunOk(src, pw, find, c0, Steps(src, pw, find, r))
    decreases |r.args|, |r.curr|
  {
    hide RunOk, Step;
    if r.curr != "" || r.args != [] {
      StepKeeps(src, pw, find, c0, r);
      RunKeeps(src, pw, find, c0, Step(src, pw, find, r));
    }
  }

  lemma ChangeOk(src: Source, find: map<string, string>, c: Chan, words: seq<string>)
    requires words != []
    ensures RunOk(src, PowersOf(src, c), find, c, Change(src, find, c, words))
    ensures !(PowersOf(src, c).ok && PowersOf(src, c).deop)
  {
    hide ChannelViews.ViewOf, Steps, SameLengths, IsMember, LinkOf;
    RunKeeps(src, PowersOf(src, c), find, c, Start(c, words));
  }

  // ----- the line at the next server -----

  /** Both servers agree about the channel, and the second one knows its members by their names. */
  ghost predicate Neighbour(c: Chan, c2: Chan, find2: map<string, string>) {
    && ChannelViews.ViewOf(c) == ChannelViews.ViewOf(c2)
    && forall n :: IsMember(c.members, n) ==> NickText(n) && n in find2 && find2[n] == n
  }

  /** A sender as the next server sees it: not its own, behind a link. */
  function Remote(src: Source): Source { Source(src.nick, src.server, false, true) }

  lemma SameMembersSeen(c: Chan, c2: Chan)
    requires ChannelViews.ViewOf(c) == ChannelViews.ViewOf(c2)
    ensures SameMembers(c, c2)
  {
    hide ChannelViews.StatusOf, IsMember;
    forall n ensures IsMember(c.members, n) <==> IsMember(c2.members, n) {
      ChannelViews.StatusOfMember(c.members, n);
      ChannelViews.StatusOfMember(c2.members, n);
    }
  }

  /** Without the right to change anything, nothing is changed. */
  lemma {:induction false} Refused(src: Source, pw: Powers, find: map<string, string>, c: Chan, r: State)
    requires RunOk(src, pw, find, c, r) && !pw.ok
    ensures r.edits == [] && ChannelViews.ViewOf(r.chan) == ChannelViews.ViewOf(c)
  {
  }

  /** A line with the changes `xs`, as the next server reads it or a local user types it. */
  lemma Reads(src: Source, find: map<string, string>, c: Chan, xs: seq<Edit>)
    requires src.mine ==> IsMember(c.members, src.nick) && Once(0, {}, xs)
    requires xs != [] && Room(0, xs) && Limits(xs) <= 1 && PowersOf(src, c).ok
    requires forall x <- xs :: Fits(x, src, c.members) && Findable(find, x)
    ensures SentWords(LineOf(xs).value) != []
    ensures Change(src, find, c, SentWords(LineOf(xs).value)).edits == xs
    ensures !Change(src, find, c, SentWords(LineOf(xs).value)).beyond
  {
    hide Spell, Args, CollapseFrom, IsMember, FlagOf, NickText, Room, Limits, Steps, SentWords, Once;
    SentWordsAre(xs);
    var words := SentWords(LineOf(xs).value);
    var r := Start(c, words);
    assert words[0] == Collapse(Spell(xs)) && words[1..] == Args(xs);
    NotBoth(src, c);
    Replayed(src, PowersOf(src, c), find, r, xs, NUL);
    assert [] + xs == xs;
  }

  lemma NotBoth(src: Source, c: Chan)
    ensures PowersOf(src, c).ok ==> PowersOf(src, c) == Powers(true, false)
  {
  }

  /** What a run leaves is a line that fits. */
  lemma RunFits(src: Source, find: map<string, string>, c: Chan, words: seq<string>)
    requires words != [] && ((src.mine && ShortNicks(c)) || SameLengths(find))
    ensures var xs := Change(src, find, c, words).edits;
      Room(0, xs) && Limits(xs) <= 1 && (forall x <- xs :: Fits(x, src, c.members))
          && (xs != [] ==> PowersOf(src, c).ok)
  {
    hide SameLengths, IsMember, Fits, Cost, Limits, Room, ShortNicks, Steps, PowersOf, ChannelViews.ViewOf, ViewAll;
    ChangeOk(src, find, c, words);
    var r := Change(src, find, c, words);
    if src.mine && ShortNicks(c) {
      Larger(r.done, SWITCHES);
      assert |SWITCHES| == 6;
      RoomEnough(0, r.edits);
    }
  }

  /** A text that needs no more than the mode buffer, with the NUL behind it. */
  predicate WordFits(xs: seq<Edit>) { |Spell(xs)| + 1 <= MODEBUFLEN }

  lemma {:induction false} SpellLength(xs: seq<Edit>)
    ensures |Spell(xs)| == 2 * |xs|
  {
    if xs != [] { SpellLength(xs[1..]); }
  }

  /** The mode word that is written fits its buffer if and only if there are fewer than 100 changes. There
      are never more, exactly 100 only with a cleared limit, and no local user gets beyond 11. */
  lemma WordFitsExact(src: Source, find: map<string, string>, c: Chan, words: seq<string>)
    requires words != [] && "" !in find
    ensures var xs := Change(src, find, c, words).edits;
      && (WordFits(xs) <==> |xs| < 100) && |xs| <= 100 && (|xs| == 100 ==> NoLimit in xs)
      && (src.mine ==> |xs| <= 11)
  {
    hide SameLengths, IsMember, Fits, Cost, Limits, Room, ShortNicks, Steps, PowersOf, ChannelViews.ViewOf, ViewAll,
        Clears;
    ChangeOk(src, find, c, words);
    var r := Change(src, find, c, words);
    SpellLength(r.edits);
    ClearsIs(r.edits);
    Larger(r.done, if src.mine then SWITCHES else r.done);
    assert |SWITCHES| == 6;
  }

  function Letters(n: nat): string { if n == 0 then "-l" else "i" + Letters(n - 1) }

  lemma {:induction false} LettersRun(src: Source, pw: Powers, find: map<string, string>, r: State, n: nat)
    requires !src.mine && pw.ok && r.curr == Letters(n) && r.args == [] && r.limits == 0 && r.len + 2 * n < MODEBUFLEN
    requires n > 0 ==> r.what.Add?
    ensures var q := Steps(src, pw, find, r); |q.edits| == |r.edits| + n + 1 && !q.beyond == !r.beyond
    decreases n
  {
    hide EditOne;
    if n == 0 {
      assert r.curr[1..] == "l" && "l"[1..] == "";
      var p := Step(src, pw, find, r);
      var q := Step(src, pw, find, p);
      assert Steps(src, pw, find, q) == q;
    } else {
      assert r.curr[1..] == Letters(n - 1);
      LettersRun(src, pw, find, Step(src, pw, find, r), n - 1);
    }
  }

  /** A remote sender does get to 100: the letter i 99 times and then -l, one character too many. */
  lemma WordTooLong(src: Source, c: Chan)
    requires !src.mine && PowersOf(src, c).ok
    ensures !Change(src, map[], c, [Letters(99)]).beyond && !WordFits(Change(src, map[], c, [Letters(99)]).edits)
  {
    hide PowersOf, Steps;
    assert [Letters(99)][1..] == [];
    LettersRun(src, PowersOf(src, c), map[], Start(c, [Letters(99)]), 99);
    SpellLength(Change(src, map[], c, [Letters(99)]).edits);
  }

  /** One hop of a MODE line. The next server makes the very same changes if and only if the
      sender may make changes there; then both agree again and it sends on the very same line. */
  lemma HopReplays(src: Source, find: map<string, string>, c: Chan, words: seq<string>,
                   find2: map<string, string>, c2: Chan)
    requires words != [] && Neighbour(c, c2, find2) && ((src.mine && ShortNicks(c)) || SameLengths(find))
    requires Change(src, find, c, words).edits != [] && !Change(src, find, c, words).beyond
    ensures var r, sent := Change(src, find, c, words), SentWords(LineOf(Change(src, find, c, words).edits).value);
      && sent != []
      && var r2 := Change(Remote(src), find2, c2, sent);
      && (r2.edits == r.edits <==> PowersOf(Remote(src), c2).ok)
      && (PowersOf(Remote(src), c2).ok ==> !r2.beyond && ChannelViews.ViewOf(r2.chan) == ChannelViews.ViewOf(r.chan))
      && (!PowersOf(Remote(src), c2).ok ==> r2.edits == [] && ChannelViews.ViewOf(r2.chan) == ChannelViews.ViewOf(c2))
  {
    hide SameLengths, IsMember, Fits, Room, ShortNicks, Steps, PowersOf, ChannelViews.ViewOf, Change, SentWords,
        Findable, ViewAll;
    var r := Change(src, find, c, words);
    var s2 := Remote(src);
    RunFits(src, find, c, words);
    ChangeOk(src, find, c, words);
    forall x | x in r.edits ensures Fits(x, s2, c2.members) && Findable(find2, x) { Carries(src, c, c2, find2, x); }
    KnownWords(r.edits, s2, c2, find2);
    var sent := SentWords(LineOf(r.edits).value);
    ChangeOk(s2, find2, c2, sent);
    if PowersOf(s2, c2).ok {
      Reads(s2, find2, c2, r.edits);
    } else {
      Refused(s2, PowersOf(s2, c2), find2, c2, Change(s2, find2, c2, sent));
    }
  }

  lemma KnownWords(xs: seq<Edit>, src: Source, c: Chan, find: map<string, string>)
    requires xs != [] && forall x <- xs :: Fits(x, src, c.members) && Findable(find, x)
    ensures SentWords(LineOf(xs).value) != []
  {
    hide SentWords, IsMember, NickText, FlagOf;
    SentWordsAre(xs);
  }

  lemma Carries(src: Source, c: Chan, c2: Chan, find2: map<string, string>, x: Edit)
    requires Neighbour(c, c2, find2) && Fits(x, src, c.members)
    ensures Fits(x, Remote(src), c2.members) && Findable(find2, x)
  {
    hide IsMember, NickText, ChannelViews.ViewOf;
    SameMembersSeen(c, c2);
  }

  /** An operator has its rights at every server that agrees about the channel. */
  lemma OperatorEverywhere(src: Source, c: Chan, c2: Chan)
    requires ChannelViews.ViewOf(c) == ChannelViews.ViewOf(c2)
    requires LinkOf(c.members, src.nick).Some? && LinkOf(c.members, src.nick).value.op
    ensures PowersOf(Remote(src), c2).ok
  {
    LinkIsStatus(c.members, src.nick);
    LinkIsStatus(c2.members, src.nick);
  }

  /** Both servers agree, and one of them has marked the user as deopped. */
  const PLAIN := Chan(5, NO_MODE, [Member("bob", false, false, false)], false)
  const MARKED := Chan(5, NO_MODE, [Member("bob", false, false, true)], false)

  /** A remote user's +m is taken by the one and refused by the other. */
  lemma DeoppedElsewhere()
    ensures var src, find := Source("bob", false, false, true), map["bob" := "bob"];
      && Neighbour(PLAIN, MARKED, find) && SameLengths(find) && !PowersOf(Remote(src), MARKED).ok
      && Change(src, find, PLAIN, ["+m"]).edits == [Switch(true, 'm')] && !Change(src, find, PLAIN, ["+m"]).beyond
      && var sent := SentWords(LineOf([Switch(true, 'm')]).value);
         && sent != []
         && ChannelViews.ViewOf(Change(Remote(src), find, MARKED, sent).chan)
            != ChannelViews.ViewOf(Change(src, find, PLAIN, ["+m"]).chan)
  {
    var src, find := Source("bob", false, false, true), map["bob" := "bob"];
    assert ChannelViews.StatusOf([]) == map[];
    assert PLAIN.members[1..] == [] && MARKED.members[1..] == [];
    assert forall n :: IsMember(PLAIN.members, n) <==> n == "bob" by { assert PLAIN.members[0].nick == "bob"; }
    assert NickText("bob");
    assert ["+m"][1..] == [];
    PlusM(src, PowersOf(src, PLAIN), find, Start(PLAIN, ["+m"]));
    assert ViewChanged();
    hide Change, SentWords, Steps;
    HopReplays(src, find, PLAIN, ["+m"], find, MARKED);
  }

  predicate ViewChanged() { ChannelViews.ViewOf(EditOne(PLAIN, Switch(true, 'm'))).mode.flags != {} }

  lemma PlusM(src: Source, pw: Powers, find: map<string, string>, r: State)
    requires !src.mine && pw.ok && r.curr == "+m" && r.args == [] && r.len == 0 && r.edits == [] && !r.beyond
    ensures var q := Steps(src, pw, find, r);
      q.edits == [Switch(true, 'm')] && !q.beyond && q.chan == EditOne(r.chan, Switch(true, 'm'))
  {
    hide EditOne;
    assert "+m"[1..] == "m" && "m"[1..] == "";
    var p := Step(src, pw, find, r);
    var q := Step(src, pw, find, p);
    assert Steps(src, pw, find, q) == q;
    assert [] + [Switch(true, 'm')] == [Switch(true, 'm')];
  }

  /** The o, v, l and imnpst changes of a local user come to the same at the user's server and at
      every neighbour; when no line is sent, nothing has changed. */
  lemma LocalChangesAgree(src: Source, find: map<string, string>, c: Chan, words: seq<string>,
                          find2: map<string, string>, c2: Chan)
    requires words != [] && Neighbour(c, c2, find2) && src.mine && !src.server && !src.link && ShortNicks(c)
    requires !Change(src, find, c, words).beyond
    ensures var r := Change(src, find, c, words);
      if r.edits == [] then ChannelViews.ViewOf(r.chan) == ChannelViews.ViewOf(c2)
      else
        var sent := SentWords(LineOf(r.edits).value);
        && sent != []
        && Change(Remote(src), find2, c2, sent).edits == r.edits
        && ChannelViews.ViewOf(Change(Remote(src), find2, c2, sent).chan) == ChannelViews.ViewOf(r.chan)
  {
    hide SameLengths, IsMember, Room, ShortNicks, Steps, ChannelViews.ViewOf, Change, SentWords, Findable, NickText;
    ChangeOk(src, find, c, words);
    if Change(src, find, c, words).edits != [] {
      RunFits(src, find, c, words);
      OperatorEverywhere(src, c, c2);
      HopReplays(src, find, c, words, find2, c2);
    } else {
      assert ViewAll(ChannelViews.ViewOf(c), []) == ChannelViews.ViewOf(c);
    }
  }

  // ----- along a path of servers -----

  datatype Hop = Hop(find: map<string, string>, chan: Chan)

  function Chans(hops: seq<Hop>): seq<Chan> { seq(|hops|, i requires 0 <= i < |hops| => hops[i].chan) }

  /** The channel at each server of a path, after each has read what the one before it sent on. */
  function Travel(src: Source, words: seq<string>, hops: seq<Hop>): (r: seq<Chan>)
    ensures |r| == |hops|
    decreases |hops|
  {
    if hops == [] || words == [] then Chans(hops)
    else
      var r := Change(Remote(src), hops[0].find, hops[0].chan, words);
      [r.chan] + if r.edits == [] then Chans(hops[1..]) else Travel(src, SentWords(LineOf(r.edits).value), hops[1..])
  }

  /** The line is the same on every link and has the same effect behind each. */
  lemma {:induction false} TravelAgrees(src: Source, c: Chan, xs: seq<Edit>, v: View, hops: seq<Hop>)
    requires xs != [] && v == ViewAll(ChannelViews.ViewOf(c), xs) && Room(0, xs) && Limits(xs) <= 1
    requires forall x <- xs :: Fits(x, src, c.members)
    requires forall h <- hops :: Neighbour(c, h.chan, h.find) && PowersOf(Remote(src), h.chan).ok
    ensures var cs := Travel(src, SentWords(LineOf(xs).value), hops);
      forall i :: 0 <= i < |hops| ==> ChannelViews.ViewOf(cs[i]) == v
    decreases |hops|
  {
    hide IsMember, Fits, Room, Limits, PowersOf, ChannelViews.ViewOf, Change, SentWords, Neighbour, ViewAll, Travel;
    if hops != [] {
      HopTakes(src, c, xs, v, hops[0]);
      TravelAgrees(src, c, xs, v, hops[1..]);
      TravelStep(src, xs, hops);
    }
  }

  lemma TravelStep(src: Source, xs: seq<Edit>, hops: seq<Hop>)
    requires xs != [] && hops != [] && SentWords(LineOf(xs).value) != []
    requires Change(Remote(src), hops[0].find, hops[0].chan, SentWords(LineOf(xs).value)).edits == xs
    ensures var words := SentWords(LineOf(xs).value);
      Travel(src, words, hops) == [Change(Remote(src), hops[0].find, hops[0].chan, words).chan]
          + Travel(src, words, hops[1..])
  {
    hide Change, SentWords;
  }

  lemma HopTakes(src: Source, c: Chan, xs: seq<Edit>, v: View, h: Hop)
    requires xs != [] && v == ViewAll(ChannelViews.ViewOf(c), xs) && Room(0, xs) && Limits(xs) <= 1
    requires Neighbour(c, h.chan, h.find) && PowersOf(Remote(src), h.chan).ok
        && forall x <- xs :: Fits(x, src, c.members)
    ensures SentWords(LineOf(xs).value) != []
    ensures Change(Remote(src), h.find, h.chan, SentWords(LineOf(xs).value)).edits == xs
    ensures ChannelViews.ViewOf(Change(Remote(src), h.find, h.chan, SentWords(LineOf(xs).value)).chan) == v
  {
    hide IsMember, Fits, Room, Limits, PowersOf, ChannelViews.ViewOf, Change, SentWords, Findable, Neighbour, ViewAll;
    var s2 := Remote(src);
    forall x | x in xs
      ensures Fits(x, s2, h.chan.members) && Findable(h.find, x)
    {
      Carries(src, c, h.chan, h.find, x);
    }
    Reads(s2, h.find, h.chan, xs);
    ChangeOk(s2, h.find, h.chan, SentWords(LineOf(xs).value));
    SameView(c, h.chan, h.find);
  }

  lemma SameView(c: Chan, c2: Chan, find2: map<string, string>)
    requires Neighbour(c, c2, find2)
    ensures ChannelViews.ViewOf(c) == ChannelViews.ViewOf(c2)
  {
  }

  /** A local user's changes reach every server of a path whose servers agreed with the user's,
      and all of them agree afterwards. */
  lemma PathAgrees(src: Source, find: map<string, string>, c: Chan, words: seq<string>, hops: seq<Hop>)
    requires words != [] && src.mine && !src.server && !src.link && ShortNicks(c)
    requires !Change(src, find, c, words).beyond
    requires forall h <- hops :: Neighbour(c, h.chan, h.find)
    ensures var r := Change(src, find, c, words);
      var cs := if r.edits == [] then Chans(hops) else Travel(src, SentWords(LineOf(r.edits).value), hops);
      forall i :: 0 <= i < |hops| ==> ChannelViews.ViewOf(cs[i]) == ChannelViews.ViewOf(r.chan)
  {
    hide SameLengths, IsMember, Fits, Room, Limits, ShortNicks, Steps, ChannelViews.ViewOf, Change, SentWords,
        Neighbour, ViewAll;
    var r := Change(src, find, c, words);
    ChangeOk(src, find, c, words);
    forall h | h in hops ensures ChannelViews.ViewOf(h.chan) == ChannelViews.ViewOf(c) { SameView(c, h.chan, h.find); }
    if r.edits != [] {
      RunFits(src, find, c, words);
      forall h | h in hops ensures PowersOf(Remote(src), h.chan).ok { OperatorEverywhere(src, c, h.chan); }
      TravelAgrees(src, c, r.edits, ChannelViews.ViewOf(r.chan), hops);
    } else {
      NoChanges(ChannelViews.ViewOf(c));
    }
  }

  lemma NoChanges(v: View)
    ensures ViewAll(v, []) == v
  {
  }
}
