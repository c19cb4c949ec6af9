/** Every sequence of joins, parts, invitations, mode changes, SJOINs and exits (src/channel.c,
    src/client.c): the two relations of Memberships stay consistent. */
module MembershipRuns {
  import opened Chains
  import opened Text
  import opened Channels
  import opened Memberships

  /** The names that the list of an SJOIN resolves to are users. */
  predicate Known(who: map<string, string>, users: map<string, User>) { forall n <- who :: who[n] in users }

  /** The loop of m_sjoin over the list of names: the members are those that Channels.JoinAll says, and
      every new one has the channel on its own list. */
  method JoinNames(r: Registry, ch: string, toks: seq<string>, who: map<string, string>, keepNew: bool)
    requires r.Valid() && ch in r.chans && Known(who, r.users)
    modifies r
    ensures r.Valid() && ch in r.chans && r.users.Keys == old(r.users).Keys
    ensures r.chans[ch].members == JoinAll(old(r.chans[ch].members), toks, who, keepNew).members
    ensures r.chans == old(r.chans)[ch := r.chans[ch]] && r.chans[ch].juped == old(r.chans[ch].juped)
  {
    hide WorldOk, Nicks, MarksOp, MarksVoice, Bare;
    ghost var was := r.chans[ch].members;
    for i := 0 to |toks|
      invariant r.Valid() && ch in r.chans && r.users.Keys == old(r.users).Keys
      invariant r.chans[ch].members == JoinAll(was, toks[..i], who, keepNew).members
      invariant r.chans == old(r.chans)[ch := r.chans[ch]] && r.chans[ch].juped == old(r.chans[ch].juped)
    {
      assert toks[..i + 1][..i] == toks[..i];
      var tok := toks[i];
      var op, voice, deopped := MarksOp(tok), MarksVoice(tok), false;
      if !keepNew { op, voice, deopped := false, false, op; }
      var nick := Bare(tok);
      if nick in who {
        MembersAre(r.chans[ch].members, who[nick]);
        if who[nick] !in Nicks(r.chans[ch].members) { r.AddUser(ch, Member(who[nick], op, voice, deopped)); }
      }
    }
    assert toks[..|toks|] == toks;
  }

  lemma MembersAre(ms: seq<Member>, n: string)
    ensures IsMember(ms, n) <==> n in Nicks(ms)
  {
    if IsMember(ms, n) {
      var i :| 0 <= i < |ms| && ms[i].nick == n;
      assert Nicks(ms)[i] == n;
    }
  }

  /** What m_sjoin does to the relations: the channel is there, its members lose op and voice if their
      side is younger, and the names of the line are added. */
  method SjoinMembers(r: Registry, ch: string, d: Decision, toks: seq<string>, who: map<string, string>)
    requires r.Valid() && Known(who, r.users)
    modifies r
    ensures r.Valid() && ch in r.chans && r.users.Keys == old(r.users).Keys
    ensures var was := if ch in old(r.chans) then old(r.chans)[ch].members else [];
      r.chans[ch].members == JoinAll(if d.keepOurs then was else Stripped(was), toks, who, d.keepNew).members
    ensures forall x <- old(r.chans) :: x != ch ==> x in r.chans && r.chans[x] == old(r.chans)[x]
  {
    hide WorldOk, JoinAll;
    r.GetChannel(ch);
    if !d.keepOurs { r.StripChannel(ch); }
    assert Stripped([]) == [];
    JoinNames(r, ch, toks, who, d.keepNew);
  }

  /** Channel mode -i: the invitations are void. */
  method ModeNotInvite(r: Registry, ch: string)
    requires r.Valid() && ch in r.chans
    modifies r
    ensures r.Valid() && r.W() == AllUninvited(old(r.W()), ch)
  {
    hide WorldOk;
    UninvitedOk(r.W(), ch);
    InviteesKnown(r.W(), ch);
    r.VoidInvites(ch);
  }

  /** What users and servers do to the relations. */
  datatype Act =
    | Register(who: string)
    | Join(who: string, ch: string, op: bool)
    | Leave(who: string, ch: string)
    | Invite(who: string, ch: string)
    | Status(ch: string, who: string, op: bool, add: bool)
    | Deop(ch: string, who: string)
    | NotInvite(ch: string)
    | Jupe(ch: string, on: bool)
    | Sjoin(ch: string, d: Decision, names: string, known: map<string, string>)
    | Exit(who: string)

  method Do(r: Registry, a: Act)
    requires r.Valid()
    modifies r
    ensures r.Valid()
  {
    hide WorldOk, JoinAll, Cut, Prune, Nicks, Flagged, DeopMarked, Outside, Uninvited, AllUninvited;
    match a {
      case Register(who) => if who !in r.users { r.Register(who); }
      case Join(who, ch, op) =>
        if who in r.users {
          r.GetChannel(ch);
          if who !in Nicks(r.chans[ch].members) { r.AddUser(ch, Member(who, op, false, false)); }
        }
      case Leave(who, ch) => if ch in r.chans && who in Nicks(r.chans[ch].members) { r.RemoveUser(who, ch); }
      case Invite(who, ch) => if who in r.users && ch in r.chans { r.AddInvite(who, ch); }
      case Status(ch, who, op, add) => if ch in r.chans { r.ChangeFlag(ch, who, op, add); }
      case Deop(ch, who) => if ch in r.chans { r.SetDeopped(ch, who); }
      case NotInvite(ch) => if ch in r.chans { ModeNotInvite(r, ch); }
      case Jupe(ch, on) => if ch in r.chans { r.SetJuped(ch, on); }
      case Sjoin(ch, d, names, known) =>
        if Known(known, r.users) { SjoinMembers(r, ch, d, Tokens(names), known); }
      case Exit(who) => if who in r.users { r.ExitUser(who); }
    }
  }

  /** Any run from the start: both relations are the same from either side, counts are list lengths,
      nobody is operator and deopped, and invitations are bounded and without duplicates. */
  method Run(acts: seq<Act>) returns (r: Registry)
    ensures r.Valid()
    ensures forall ch <- r.chans :: ChannelOk(r.W(), ch, r.chans[ch])
    ensures forall u <- r.users :: UserOk(r.W(), u, r.users[u])
  {
    hide ChannelOk, UserOk;
    r := new Registry();
    for i := 0 to |acts|
      invariant fresh(r) && r.Valid()
    {
      Do(r, acts[i]);
    }
  }
}
