/** What servers have to agree on about a channel - timestamp, imnpst modes, limit, key
    and who has op or voice - and SJOIN as a function on that. The DEOPPED mark and the
    MODE_LIMIT bit are not part of it: SJOIN carries neither. */
module ChannelViews {
  import opened Text
  import opened Channels

  datatype Status = Status(op: bool, voice: bool)

  datatype View = View(ts: int, mode: Mode, status: map<string, Status>)

  datatype User = User(nick: string, op: bool, voice: bool)

  /** A channel description: an SJOIN line once its names are resolved. */
  datatype Desc = Desc(ts: int, mode: Mode, users: seq<User>)

  function StatusOf(ms: seq<Member>): map<string, Status> {
    if ms == [] then map[]
    else StatusOf(ms[1..])[ms[0].nick := Status(ms[0].op, ms[0].voice)]
  }

  function Carried(m: Mode): Mode { m.(flags := m.flags - {Limit}) }

  function ViewOf(c: Chan): View { View(c.ts, Carried(c.mode), StatusOf(c.members)) }

  function ViewOpt(c: Option<Chan>): Option<View> { if c.Some? then Some(ViewOf(c.value)) else None }

  // ----- SJOIN on views -----

  const FRESH_VIEW := View(0, NO_MODE, map[])

  function OldView(v: Option<View>): View { if v.Some? then v.value else FRESH_VIEW }

  function Verdict(v: Option<View>, ts: int): Decision {
    match v
    case None => Decision(ts, true, true)
    case Some(w) =>
      if ts == 0 || w.ts == 0 then Decision(0, true, true)
      else if ts == w.ts then Decision(ts, true, true)
      else if ts < w.ts then Decision(ts, false, true)
      else Decision(w.ts, true, false)
  }

  function Cleared(st: map<string, Status>): map<string, Status> {
    map n | n in st :: Status(false, false)
  }

  function AddUser(st: map<string, Status>, u: User, keepNew: bool): map<string, Status> {
    if u.nick in st then st else st[u.nick := Status(keepNew && u.op, keepNew && u.voice)]
  }

  function AddUsers(st: map<string, Status>, us: seq<User>, keepNew: bool): map<string, Status> {
    if us == [] then st
    else AddUser(AddUsers(st, us[..|us| - 1], keepNew), us[|us| - 1], keepNew)
  }

  function Apply(v: Option<View>, d: Desc): View {
    var w := OldView(v);
    var k := Verdict(v, d.ts);
    View(k.ts, MergeMode(k, d.mode, w.mode),
         AddUsers(if k.keepOurs then w.status else Cleared(w.status), d.users, k.keepNew))
  }

  function ApplyAll(v: Option<View>, ds: seq<Desc>): Option<View> {
    if ds == [] then v else Some(Apply(ApplyAll(v, ds[..|ds| - 1]), ds[|ds| - 1]))
  }

  // ----- lines as descriptions -----

  function UsersOf(toks: seq<string>, who: map<string, string>): seq<User> {
    if toks == [] then []
    else
      var t := toks[|toks| - 1];
      UsersOf(toks[..|toks| - 1], who)
      + if Bare(t) in who then [User(who[Bare(t)], MarksOp(t), MarksVoice(t))] else []
  }

  predicate Parses(parv: seq<string>) {
    |parv| >= 5 && ParseModes(parv[3], parv, 0, NO_MODE).Some?
  }

  function DescOf(parv: seq<string>, who: map<string, string>): Desc
    requires Parses(parv)
  {
    var (m, args) := ParseModes(parv[3], parv, 0, NO_MODE).value;
    Desc(Atoi(parv[1]), m, UsersOf(Tokens(parv[4 + args]), who))
  }

  lemma {:induction false} StatusOfMember(ms: seq<Member>, nick: string)
    ensures nick in StatusOf(ms) <==> IsMember(ms, nick)
  {
    if ms != [] {
      StatusOfMember(ms[1..], nick);
      if ms[0].nick != nick && IsMember(ms, nick) {
        var i :| 0 <= i < |ms| && ms[i].nick == nick;
        assert ms[1..][i - 1].nick == nick;
      }
      if IsMember(ms[1..], nick) {
        var i :| 0 <= i < |ms[1..]| && ms[1..][i].nick == nick;
        assert ms[i + 1].nick == nick;
      }
    }
  }

  lemma {:induction false} StatusOfStripped(ms: seq<Member>)
    ensures StatusOf(Stripped(ms)) == Cleared(StatusOf(ms))
  {
    if ms != [] {
      StatusOfStripped(ms[1..]);
      assert Stripped(ms)[1..] == Stripped(ms[1..]);
    }
  }

  lemma StatusOfJoinOne(j: Joined, tok: string, who: map<string, string>, keepNew: bool)
    ensures StatusOf(JoinOne(j, tok, who, keepNew).members)
         == if Bare(tok) in who
            then AddUser(StatusOf(j.members), User(who[Bare(tok)], MarksOp(tok), MarksVoice(tok)), keepNew)
            else StatusOf(j.members)
  {
    var s := Bare(tok);
    if s in who {
      StatusOfMember(j.members, who[s]);
      var m := Member(who[s], keepNew && MarksOp(tok), keepNew && MarksVoice(tok), !keepNew && MarksOp(tok));
      assert ([m] + j.members)[1..] == j.members;
    }
  }

  lemma {:induction false} StatusOfJoinAll(ms: seq<Member>, toks: seq<string>, who: map<string, string>, keepNew: bool)
    ensures StatusOf(JoinAll(ms, toks, who, keepNew).members) == AddUsers(StatusOf(ms), UsersOf(toks, who), keepNew)
  {
    if toks != [] {
      var init, t := toks[..|toks| - 1], toks[|toks| - 1];
      StatusOfJoinAll(ms, init, who, keepNew);
      StatusOfJoinOne(JoinAll(ms, init, who, keepNew), t, who, keepNew);
      if Bare(t) in who {
        var us := UsersOf(toks, who);
        assert us[..|us| - 1] == UsersOf(init, who);
      } else {
        assert UsersOf(toks, who) == UsersOf(init, who);
      }
    }
  }

  lemma {:induction false} ParsedFlags(s: string, parv: seq<string>, args: nat, m: Mode)
    requires 5 + args <= |parv| && Limit !in m.flags && |m.key| <= KEYLEN
    ensures var r := ParseModes(s, parv, args, m);
      r.Some? ==> Limit !in r.value.0.flags && |r.value.0.key| <= KEYLEN
  {
    if s == "" {
    } else if s[0] == 'k' {
      if |parv| >= 6 + args { ParsedFlags(s[1..], parv, args + 1, m.(key := CutKey(parv[4 + args]))); }
    } else if s[0] == 'l' {
      if |parv| >= 6 + args { ParsedFlags(s[1..], parv, args + 1, m.(limit := Atoi(parv[4 + args]))); }
    } else {
      match FlagOf(s[0])
      case Some(f) => ParsedFlags(s[1..], parv, args, m.(flags := m.flags + {f}));
      case None => ParsedFlags(s[1..], parv, args, m);
    }
  }

  /** On a channel that is not juped, m_sjoin does exactly what Apply says. */
  lemma SJoinRefines(was: Option<Chan>, parv: seq<string>, who: map<string, string>)
    requires Parses(parv)
    requires was.Some? ==> !was.value.juped
    ensures ViewOf(SJoin(was, parv, who).chan) == Apply(ViewOpt(was), DescOf(parv, who))
  {
    hide ForwardRest, WireParv, ParseModes, Tokens, Atoi, JoinAll, AddUsers, UsersOf, StrLess;
    var (theirs, args) := ParseModes(parv[3], parv, 0, NO_MODE).value;
    ParsedFlags(parv[3], parv, 0, NO_MODE);
    var c := OldChan(was);
    var d := Decide(was, Atoi(parv[1]));
    assert d == Verdict(ViewOpt(was), Atoi(parv[1]));
    StatusOfStripped(c.members);
    StatusOfJoinAll(if d.keepOurs then c.members else Stripped(c.members), Tokens(parv[4 + args]), who, d.keepNew);
    assert Carried(MergeMode(d, theirs, c.mode)) == MergeMode(d, theirs, Carried(c.mode));
  }
}
