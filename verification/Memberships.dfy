/** Who is in which channel and who is invited where (src/channel.c): two relations, each
    kept twice, once with the user and once with the channel. */
module Memberships {
  import opened Chains
  import opened Channels

  const MAXCHANNELSPERUSER := 20

  datatype Channel = Channel(members: seq<Member>, users: int, invites: seq<string>, juped: bool)

  datatype User = User(channels: seq<string>, joined: int, invited: seq<string>)

  datatype World = World(users: map<string, User>, chans: map<string, Channel>)

  function Nicks(ms: seq<Member>): (r: seq<string>)
    ensures |r| == |ms| && forall i :: 0 <= i < |ms| ==> r[i] == ms[i].nick
  {
    seq(|ms|, i requires 0 <= i < |ms| => ms[i].nick)
  }

  // ----- consistency -----

  predicate ChannelOk(w: World, name: string, c: Channel) {
    && Unique(Nicks(c.members)) && c.users == |c.members| && Unique(c.invites)
    && (forall i :: 0 <= i < |c.members| ==> !(c.members[i].op && c.members[i].deopped))
    && (forall n <- Nicks(c.members) :: n in w.users && name in w.users[n].channels)
    && (forall n <- c.invites :: n in w.users && name in w.users[n].invited)
  }

  predicate UserOk(w: World, who: string, u: User) {
    && Unique(u.channels) && u.joined == |u.channels|
    && Unique(u.invited) && |u.invited| <= MAXCHANNELSPERUSER
    && (forall ch <- u.channels :: ch in w.chans && who in Nicks(w.chans[ch].members))
    && (forall ch <- u.invited :: ch in w.chans && who in w.chans[ch].invites)
  }

  ghost predicate WorldOk(w: World) {
    && (forall ch <- w.chans :: ChannelOk(w, ch, w.chans[ch]))
    && (forall u <- w.users :: UserOk(w, u, w.users[u]))
  }

  /** Both relations, read from either side, are the same. */
  lemma Symmetric(w: World, who: string, ch: string)
    requires WorldOk(w) && who in w.users && ch in w.chans
    ensures ch in w.users[who].channels <==> who in Nicks(w.chans[ch].members)
    ensures ch in w.users[who].invited <==> who in w.chans[ch].invites
  {
    hide Nicks, Unique;
    assert ChannelOk(w, ch, w.chans[ch]) && UserOk(w, who, w.users[who]);
  }

  // ----- member chains -----

  function OutsideM(ms: seq<Member>, dead: set<string>): (r: seq<Member>)
    ensures |r| <= |ms|
  {
    if ms == [] then []
    else
      (if ms[0].nick in dead then [] else [ms[0]]) + OutsideM(ms[1..], dead)
  }

  lemma {:induction false} OutsideMIs(ms: seq<Member>, dead: set<string>)
    ensures forall m :: m in OutsideM(ms, dead) <==> m in ms && m.nick !in dead
  {
    if ms != [] {
      OutsideMIs(ms[1..], dead);
      assert ms == [ms[0]] + ms[1..];
    }
  }

  lemma NicksCons(m: Member, ms: seq<Member>)
    ensures Nicks([m] + ms) == [m.nick] + Nicks(ms)
  {
  }

  lemma {:induction false} NicksOutside(ms: seq<Member>, dead: set<string>)
    ensures Nicks(OutsideM(ms, dead)) == Outside(Nicks(ms), dead)
  {
    if ms != [] {
      NicksOutside(ms[1..], dead);
      NicksCons(ms[0], ms[1..]);
      assert [ms[0]] + ms[1..] == ms;
      var r := OutsideM(ms[1..], dead);
      assert Nicks(ms)[0] == ms[0].nick && Nicks(ms)[1..] == Nicks(ms[1..]);
      hide Nicks;
      if ms[0].nick in dead {
        assert [] + r == r && [] + Outside(Nicks(ms[1..]), dead) == Outside(Nicks(ms[1..]), dead);
      } else {
        NicksCons(ms[0], r);
      }
    }
  }

  lemma {:induction false} OutsideMTwice(ms: seq<Member>, a: set<string>, b: set<string>)
    ensures OutsideM(OutsideM(ms, a), b) == OutsideM(ms, a + b)
  {
    if ms != [] {
      OutsideMTwice(ms[1..], a, b);
      var r := OutsideM(ms[1..], a);
      if ms[0].nick !in a {
        assert ([ms[0]] + r)[1..] == r;
      } else {
        assert [] + r == r;
      }
    }
  }

  lemma {:induction false} OutsideMNone(ms: seq<Member>, dead: set<string>)
    requires forall n <- Nicks(ms) :: n !in dead
    ensures OutsideM(ms, dead) == ms
  {
    if ms != [] {
      assert ms[0].nick in Nicks(ms);
      assert Nicks(ms)[1..] == Nicks(ms[1..]);
      forall n | n in Nicks(ms[1..]) ensures n !in dead { assert n in Nicks(ms); }
      OutsideMNone(ms[1..], dead);
      assert ms == [ms[0]] + ms[1..];
    }
  }

  lemma NickIn(ms: seq<Member>, n: string)
    ensures n in Nicks(ms) <==> exists m :: m in ms && m.nick == n
  {
    if n in Nicks(ms) {
      var i :| 0 <= i < |ms| && Nicks(ms)[i] == n;
      assert ms[i] in ms;
    }
    if m :| m in ms && m.nick == n {
      var i :| 0 <= i < |ms| && ms[i] == m;
      assert Nicks(ms)[i] == n;
    }
  }

  // ----- leaving channels -----

  /** Channel `c` loses its last members when the users `dead` leave. */
  predicate Emptied(c: Channel, dead: set<string>) { c.members != [] && OutsideM(c.members, dead) == [] }

  /** The channels of `from` that lose their last members. */
  function EmptiedOf(w: World, dead: set<string>, from: set<string>): set<string> {
    set ch | ch in from && ch in w.chans && Emptied(w.chans[ch], dead)
  }

  function CutChannel(c: Channel, dead: set<string>): Channel {
    var ms := OutsideM(c.members, dead);
    Channel(ms, |ms|, if Emptied(c, dead) then [] else c.invites, c.juped)
  }

  /** The users `dead` leave the channels `from`. An emptied channel is freed unless it is
      juped, and its invitations are void. */
  function Cut(w: World, dead: set<string>, from: set<string>): World {
    World(map u | u in w.users :: CutUser(w, u, dead, from),
          map ch | ch in w.chans && !(ch in from && Emptied(w.chans[ch], dead) && !w.chans[ch].juped) ::
            if ch in from then CutChannel(w.chans[ch], dead) else w.chans[ch])
  }

  function CutUser(w: World, u: string, dead: set<string>, from: set<string>): User
    requires u in w.users
  {
    var x := w.users[u];
    var chs := if u in dead then Outside(x.channels, from) else x.channels;
    User(chs, |chs|, Outside(x.invited, EmptiedOf(w, dead, from)))
  }

  /** Users who are in no channel any more are freed, with their invitations. */
  function Forget(w: World, dead: set<string>): World {
    World(map u | u in w.users && u !in dead :: w.users[u],
          map ch | ch in w.chans :: w.chans[ch].(invites := Outside(w.chans[ch].invites, dead)))
  }

  /** The world without the users `dead`. */
  function Prune(w: World, dead: set<string>): World {
    Forget(Cut(w, dead, w.chans.Keys), dead)
  }

  // ----- leaving keeps the world consistent -----

  lemma CutChannelOk(w: World, dead: set<string>, from: set<string>, ch: string)
    requires WorldOk(w) && ch in Cut(w, dead, from).chans
    ensures ChannelOk(Cut(w, dead, from), ch, Cut(w, dead, from).chans[ch])
  {
    hide Nicks, Unique;
    var w' := Cut(w, dead, from);
    var c, c' := w.chans[ch], w'.chans[ch];
    assert ChannelOk(w, ch, c);
    if ch in from {
      NicksOutside(c.members, dead);
      OutsideUnique(Nicks(c.members), dead);
      OutsideMIs(c.members, dead);
      forall i | 0 <= i < |c'.members| ensures !(c'.members[i].op && c'.members[i].deopped) {
        assert c'.members[i] in c.members;
      }
    }
    forall n | n in Nicks(c'.members) ensures n in w'.users && ch in w'.users[n].channels {
      assert n in Nicks(c.members);
      if ch in from { assert n !in dead; }
    }
    forall n | n in c'.invites ensures n in w'.users && ch in w'.users[n].invited {
      assert n in c.invites && ch in w.users[n].invited;
    }
  }

  lemma CutUserOk(w: World, dead: set<string>, from: set<string>, u: string)
    requires WorldOk(w) && u in w.users
    ensures UserOk(Cut(w, dead, from), u, Cut(w, dead, from).users[u])
  {
    hide Nicks, Unique;
    var w' := Cut(w, dead, from);
    var x, x' := w.users[u], w'.users[u];
    assert UserOk(w, u, x);
    OutsideUnique(x.channels, from);
    OutsideUnique(x.invited, EmptiedOf(w, dead, from));
    forall ch | ch in x'.channels ensures ch in w'.chans && u in Nicks(w'.chans[ch].members) {
      assert ch in w.chans && u in Nicks(w.chans[ch].members);
      if ch in from {
        NicksOutside(w.chans[ch].members, dead);
        assert u in Outside(Nicks(w.chans[ch].members), dead);
        NickIn(OutsideM(w.chans[ch].members, dead), u);
      }
    }
    forall ch | ch in x'.invited ensures ch in w'.chans && u in w'.chans[ch].invites {
      assert ch in x.invited && ch !in EmptiedOf(w, dead, from);
    }
  }

  lemma CutOk(w: World, dead: set<string>, from: set<string>)
    requires WorldOk(w)
    ensures WorldOk(Cut(w, dead, from))
  {
    hide ChannelOk, UserOk;
    var w' := Cut(w, dead, from);
    forall ch | ch in w'.chans ensures ChannelOk(w', ch, w'.chans[ch]) { CutChannelOk(w, dead, from, ch); }
    forall u | u in w'.users ensures UserOk(w', u, w'.users[u]) { CutUserOk(w, dead, from, u); }
  }

  lemma ForgetOk(w: World, dead: set<string>)
    requires WorldOk(w) && forall u <- dead :: u in w.users ==> w.users[u].channels == []
    ensures WorldOk(Forget(w, dead))
  {
    hide ChannelOk, UserOk;
    var w' := Forget(w, dead);
    forall ch | ch in w'.chans ensures ChannelOk(w', ch, w'.chans[ch]) { ForgetChannelOk(w, dead, ch); }
    forall u | u in w'.users ensures UserOk(w', u, w'.users[u]) { ForgetUserOk(w, dead, u); }
  }

  lemma ForgetChannelOk(w: World, dead: set<string>, ch: string)
    requires WorldOk(w) && (forall u <- dead :: u in w.users ==> w.users[u].channels == []) && ch in w.chans
    ensures ChannelOk(Forget(w, dead), ch, Forget(w, dead).chans[ch])
  {
    hide Nicks, Unique, Outside;
    assert ChannelOk(w, ch, w.chans[ch]);
    OutsideUnique(w.chans[ch].invites, dead);
  }

  lemma ForgetUserOk(w: World, dead: set<string>, u: string)
    requires WorldOk(w) && u in w.users && u !in dead
    ensures UserOk(Forget(w, dead), u, Forget(w, dead).users[u])
  {
    hide Nicks, Unique, Outside;
    assert UserOk(w, u, w.users[u]);
  }

  lemma CutAll(w: World, dead: set<string>)
    requires WorldOk(w)
    ensures forall u <- dead :: u in w.users ==> Cut(w, dead, w.chans.Keys).users[u].channels == []
  {
    hide Nicks, Unique;
    forall u | u in dead && u in w.users ensures Cut(w, dead, w.chans.Keys).users[u].channels == [] {
      assert UserOk(w, u, w.users[u]);
      OutsideAll(w.users[u].channels, w.chans.Keys);
    }
  }

  lemma PruneOk(w: World, dead: set<string>)
    requires WorldOk(w)
    ensures WorldOk(Prune(w, dead)) && Prune(w, dead).users.Keys == w.users.Keys - dead
  {
    hide WorldOk;
    CutOk(w, dead, w.chans.Keys);
    CutAll(w, dead);
    ForgetOk(Cut(w, dead, w.chans.Keys), dead);
  }

  // ----- leaving in steps -----

  lemma EmptiedTwice(c: Channel, a: set<string>, b: set<string>)
    ensures Emptied(c, a + b) <==> Emptied(c, a) || Emptied(CutChannel(c, a), b)
    ensures CutChannel(CutChannel(c, a), b) == CutChannel(c, a + b)
  {
    OutsideMTwice(c.members, a, b);
  }

  /** Worlds with the same users and channels are the same. */
  lemma SameWorld(l: World, r: World)
    requires forall ch :: ch in l.chans <==> ch in r.chans
    requires forall ch <- l.chans :: ch in r.chans && l.chans[ch] == r.chans[ch]
    requires forall u :: u in l.users <==> u in r.users
    requires forall u <- l.users :: u in r.users && l.users[u] == r.users[u]
    ensures l == r
  {
    assert l.users == r.users && l.chans == r.chans;
  }

  /** A channel that stays when `dead` leave the channels `from`. */
  predicate Stays(w: World, dead: set<string>, from: set<string>, ch: string) {
    ch in w.chans && !(ch in from && Emptied(w.chans[ch], dead) && !w.chans[ch].juped)
  }

  lemma CutIs(w: World, dead: set<string>, from: set<string>)
    ensures var r := Cut(w, dead, from);
      && (forall ch :: ch in r.chans <==> Stays(w, dead, from, ch))
      && (forall ch <- r.chans ::
            ch in w.chans && r.chans[ch] == if ch in from then CutChannel(w.chans[ch], dead) else w.chans[ch])
      && (forall u :: u in r.users <==> u in w.users)
      && (forall u <- r.users :: u in w.users && r.users[u] == CutUser(w, u, dead, from))
  {
    hide CutUser, CutChannel, Emptied;
  }

  /** One user leaves some channels, and then some more. */
  lemma CutTwice(w: World, who: string, a: set<string>, b: set<string>)
    requires WorldOk(w)
    ensures Cut(Cut(w, {who}, a), {who}, b) == Cut(w, {who}, a + b)
  {
    hide Cut, Stays, CutChannel, CutUser, WorldOk;
    var w1 := Cut(w, {who}, a);
    CutIs(w, {who}, a);
    CutIs(w1, {who}, b);
    CutIs(w, {who}, a + b);
    var l, r := Cut(w1, {who}, b), Cut(w, {who}, a + b);
    forall ch
      ensures ch in l.chans <==> ch in r.chans
      ensures ch in l.chans ==> ch in r.chans && l.chans[ch] == r.chans[ch]
    {
      CutTwiceChannel(w, who, a, b, ch);
    }
    forall u | u in w.users ensures l.users[u] == r.users[u] { CutTwiceUser(w, who, a, b, u); }
    SameWorld(l, r);
  }

  lemma CutTwiceChannel(w: World, who: string, a: set<string>, b: set<string>, ch: string)
    ensures Stays(Cut(w, {who}, a), {who}, b, ch) <==> Stays(w, {who}, a + b, ch)
    ensures Stays(w, {who}, a + b, ch) ==>
      var c := w.chans[ch];
      var c1 := if ch in a then CutChannel(c, {who}) else c;
      (if ch in b then CutChannel(c1, {who}) else c1) == if ch in a + b then CutChannel(c, {who}) else c
  {
    hide Cut, CutChannel, Emptied, OutsideM;
    CutIs(w, {who}, a);
    if ch in w.chans {
      EmptiedTwice(w.chans[ch], {who}, {who});
      assert {who} + {who} == {who};
      CutJuped(w.chans[ch], {who});
    }
  }

  lemma CutJuped(c: Channel, dead: set<string>)
    ensures CutChannel(c, dead).juped == c.juped
  {
  }

  lemma CutTwiceUser(w: World, who: string, a: set<string>, b: set<string>, u: string)
    requires u in w.users
    ensures u in Cut(w, {who}, a).users && CutUser(Cut(w, {who}, a), u, {who}, b) == CutUser(w, u, {who}, a + b)
  {
    hide Cut, Outside, EmptiedOf;
    CutIs(w, {who}, a);
    var x := w.users[u];
    OutsideTwice(x.channels, a, b);
    EmptiedSteps(w, who, a, b);
    OutsideTwice(x.invited, EmptiedOf(w, {who}, a), EmptiedOf(Cut(w, {who}, a), {who}, b));
  }

  lemma EmptiedSteps(w: World, who: string, a: set<string>, b: set<string>)
    ensures EmptiedOf(w, {who}, a) + EmptiedOf(Cut(w, {who}, a), {who}, b) == EmptiedOf(w, {who}, a + b)
  {
    hide OutsideM, Cut, Emptied, CutChannel;
    var w1 := Cut(w, {who}, a);
    CutIs(w, {who}, a);
    forall ch | ch in w.chans
      ensures ch in EmptiedOf(w, {who}, a + b) <==> ch in EmptiedOf(w, {who}, a) || ch in EmptiedOf(w1, {who}, b)
    {
      EmptiedTwice(w.chans[ch], {who}, {who});
      assert {who} + {who} == {who};
    }
  }

  function NickNotAmong(dead: set<string>): Member -> bool { (m: Member) => m.nick !in dead }

  /** A channel that loses its last member when the users `dead` go. */
  ghost predicate LosesAll(c: Channel, dead: set<string>) {
    c.members != [] && forall i :: 0 <= i < |c.members| ==> c.members[i].nick in dead
  }

  function Voided(w: World, dead: set<string>): string -> bool {
    (ch: string) => !(ch in w.chans && Emptied(w.chans[ch], dead))
  }

  /** The world after the users `dead` have gone, said of each list: nobody else goes, no flag changes, and what
      stays keeps its order. A channel that loses its last member goes, or, if it is juped, stays empty,
      and all invitations to it are void. */
  ghost predicate WorldWithout(w: World, dead: set<string>, r: World) {
    && r.users.Keys == w.users.Keys - dead
    && (forall u <- r.users ::
          && r.users[u].channels == w.users[u].channels && r.users[u].joined == |w.users[u].channels|
          && Selection(w.users[u].invited, r.users[u].invited, Voided(w, dead)))
    && (forall ch :: ch in r.chans <==> ch in w.chans && (w.chans[ch].juped || !LosesAll(w.chans[ch], dead)))
    && forall ch <- r.chans ::
         && Selection(w.chans[ch].members, r.chans[ch].members, NickNotAmong(dead))
         && r.chans[ch].users == |r.chans[ch].members| && r.chans[ch].juped == w.chans[ch].juped
         && (if LosesAll(w.chans[ch], dead) then r.chans[ch].invites == []
             else Selection(w.chans[ch].invites, r.chans[ch].invites, NotAmong(dead)))
  }

  lemma {:induction false} OutsideMSelects(ms: seq<Member>, dead: set<string>)
    ensures Selection(ms, OutsideM(ms, dead), NickNotAmong(dead))
  {
    hide Selection;
    if ms == [] {
      SelectNone(NickNotAmong(dead));
    } else {
      OutsideMSelects(ms[1..], dead);
      SelectCons(ms[0], ms[1..], OutsideM(ms[1..], dead), NickNotAmong(dead));
      assert ms == [ms[0]] + ms[1..];
    }
  }

  lemma EmptiedIs(c: Channel, dead: set<string>)
    ensures Emptied(c, dead) <==> LosesAll(c, dead)
  {
    OutsideMIs(c.members, dead);
    var r := OutsideM(c.members, dead);
    if r != [] { assert r[0] in r; }
    if i :| 0 <= i < |c.members| && c.members[i].nick !in dead { assert c.members[i] in r; }
  }

  lemma EmptiedSelects(w: World, dead: set<string>, s: seq<string>)
    ensures Selection(s, Outside(s, EmptiedOf(w, dead, w.chans.Keys)), Voided(w, dead))
  {
    hide Selection, Emptied;
    var gone := EmptiedOf(w, dead, w.chans.Keys);
    OutsideSelects(s, gone);
    SameSelection(s, Outside(s, gone), NotAmong(gone), Voided(w, dead));
  }

  lemma SameSelection<T(!new)>(l: seq<T>, r: seq<T>, keep: T -> bool, keep': T -> bool)
    requires Selection(l, r, keep) && forall x :: keep(x) == keep'(x)
    ensures Selection(l, r, keep')
  {
    var at :| Selects(l, r, keep, at);
    assert Selects(l, r, keep', at);
  }

  /** Prune is that. */
  lemma PruneSays(w: World, dead: set<string>)
    requires WorldOk(w)
    ensures WorldWithout(w, dead, Prune(w, dead))
  {
    hide Prune, Selection, Emptied, EmptiedOf, WorldOk, LosesAll, OutsideM, Outside, Voided;
    var r := Prune(w, dead);
    PruneIs(w, dead);
    forall ch ensures ch in w.chans ==> (Emptied(w.chans[ch], dead) <==> LosesAll(w.chans[ch], dead)) {
      if ch in w.chans { EmptiedIs(w.chans[ch], dead); }
    }
    forall u | u in r.users
      ensures r.users[u].channels == w.users[u].channels && r.users[u].joined == |w.users[u].channels|
      ensures Selection(w.users[u].invited, r.users[u].invited, Voided(w, dead))
    {
      EmptiedSelects(w, dead, w.users[u].invited);
    }
    forall ch | ch in r.chans
      ensures Selection(w.chans[ch].members, r.chans[ch].members, NickNotAmong(dead))
      ensures r.chans[ch].users == |r.chans[ch].members| && r.chans[ch].juped == w.chans[ch].juped
      ensures if LosesAll(w.chans[ch], dead) then r.chans[ch].invites == []
             else Selection(w.chans[ch].invites, r.chans[ch].invites, NotAmong(dead))
    {
      var c := w.chans[ch];
      OutsideMSelects(c.members, dead);
      OutsideSelects(c.invites, dead);
      NothingOutside(dead);
    }
  }

  lemma NothingOutside(dead: set<string>)
    ensures Outside([], dead) == []
  {
  }

  lemma PruneIs(w: World, dead: set<string>)
    ensures var r := Prune(w, dead);
      && (forall ch :: ch in r.chans <==> Stays(w, dead, w.chans.Keys, ch))
      && (forall ch <- r.chans :: ch in w.chans && r.chans[ch] == PruneChannel(w.chans[ch], dead))
      && (forall u :: u in r.users <==> u in w.users && u !in dead)
      && (forall u <- r.users :: u in w.users && r.users[u] == CutUser(w, u, dead, w.chans.Keys))
  {
    hide Cut, CutUser, CutChannel, Stays;
    CutIs(w, dead, w.chans.Keys);
  }

  /** Two sets of users go, one after the other. */
  lemma PruneTwice(w: World, a: set<string>, b: set<string>)
    requires WorldOk(w)
    ensures Prune(Prune(w, a), b) == Prune(w, a + b)
  {
    hide Prune, Stays, PruneChannel, CutUser, WorldOk;
    var w1 := Prune(w, a);
    PruneIs(w, a);
    PruneIs(w1, b);
    PruneIs(w, a + b);
    var l, r := Prune(w1, b), Prune(w, a + b);
    forall ch
      ensures ch in l.chans <==> ch in r.chans
      ensures ch in l.chans ==> ch in r.chans && l.chans[ch] == r.chans[ch]
    {
      PruneTwiceChannel(w, a, b, ch);
    }
    forall u | u in r.users ensures l.users[u] == r.users[u] { PruneUserTwice(w, u, a, b); }
    SameWorld(l, r);
  }

  lemma PruneTwiceChannel(w: World, a: set<string>, b: set<string>, ch: string)
    ensures Stays(Prune(w, a), b, Prune(w, a).chans.Keys, ch) <==> Stays(w, a + b, w.chans.Keys, ch)
    ensures ch in w.chans ==> PruneChannel(PruneChannel(w.chans[ch], a), b) == PruneChannel(w.chans[ch], a + b)
  {
    hide Prune, PruneChannel, Emptied;
    PruneIs(w, a);
    if ch in w.chans {
      PruneChannelTwice(w.chans[ch], a, b);
      PruneJuped(w.chans[ch], a);
    }
  }

  lemma PruneJuped(c: Channel, dead: set<string>)
    ensures PruneChannel(c, dead).juped == c.juped
  {
  }

  /** A channel in Prune. */
  function PruneChannel(c: Channel, dead: set<string>): Channel {
    var d := CutChannel(c, dead);
    d.(invites := Outside(d.invites, dead))
  }

  lemma PruneChannelTwice(c: Channel, a: set<string>, b: set<string>)
    ensures Emptied(c, a + b) <==> Emptied(c, a) || Emptied(PruneChannel(c, a), b)
    ensures PruneChannel(PruneChannel(c, a), b) == PruneChannel(c, a + b)
  {
    OutsideMTwice(c.members, a, b);
    OutsideTwice(c.invites, a, b);
  }

  lemma PruneUserTwice(w: World, u: string, a: set<string>, b: set<string>)
    requires WorldOk(w) && u in w.users && u !in a && u !in b
    ensures u in Prune(w, a).users
    ensures CutUser(Prune(w, a), u, b, Prune(w, a).chans.Keys) == CutUser(w, u, a + b, w.chans.Keys)
  {
    hide Nicks, Unique, Outside, Prune, PruneChannel, Emptied, Stays;
    var w1 := Prune(w, a);
    PruneIs(w, a);
    assert UserOk(w, u, w.users[u]);
    var x := w.users[u].invited;
    var e1, e2, e := EmptiedOf(w, a, w.chans.Keys), EmptiedOf(w1, b, w1.chans.Keys), EmptiedOf(w, a + b, w.chans.Keys);
    OutsideTwice(x, e1, e2);
    forall ch | ch in x ensures ch in e1 + e2 <==> ch in e { EmptiedEither(w, a, b, ch); }
    OutsideSame(x, e1 + e2, e);
  }

  lemma EmptiedEither(w: World, a: set<string>, b: set<string>, ch: string)
    requires ch in w.chans
    ensures ch in EmptiedOf(w, a, w.chans.Keys) || ch in EmptiedOf(Prune(w, a), b, Prune(w, a).chans.Keys)
       <==> ch in EmptiedOf(w, a + b, w.chans.Keys)
  {
    hide Prune, PruneChannel, Emptied;
    PruneIs(w, a);
    PruneChannelTwice(w.chans[ch], a, b);
  }

  // ----- the operations -----

  class Registry {
    var users: map<string, User>
    var chans: map<string, Channel>

    ghost function W(): World
      reads this
    {
      World(users, chans)
    }

    ghost predicate Valid()
      reads this
    {
      WorldOk(W())
    }

    constructor ()
      ensures Valid() && users == map[] && chans == map[]
    {
      users, chans := map[], map[];
    }

    /** A client becomes a user. */
    method Register(who: string)
      requires Valid() && who !in users
      modifies this
      ensures Valid() && users == old(users)[who := User([], 0, [])] && chans == old(chans)
    {
      RegisterOk(W(), who);
      users := users[who := User([], 0, [])];
    }

    /** get_channel with CREATE. */
    method GetChannel(name: string)
      requires Valid()
      modifies this
      ensures Valid() && name in chans && users == old(users)
      ensures chans == if name in old(chans) then old(chans) else old(chans)[name := Channel([], 0, [], false)]
    {
      CreateOk(W(), name);
      if name !in chans { chans := chans[name := Channel([], 0, [], false)]; }
    }

    /** add_user_to_channel; the callers have checked that the user is not a member, and
        that the flags do not have CHANOP and DEOPPED both. */
    method AddUser(ch: string, m: Member)
      requires Valid() && ch in chans && m.nick in users && m.nick !in Nicks(chans[ch].members) && !(m.op && m.deopped)
      modifies this
      ensures Valid()
      ensures var c, u := old(chans)[ch], old(users)[m.nick];
        && chans == old(chans)[ch := c.(members := [m] + c.members, users := |c.members| + 1)]
        && users == old(users)[m.nick := u.(channels := [ch] + u.channels, joined := |u.channels| + 1)]
    {
      var c, u := chans[ch], users[m.nick];
      AddUserOk(W(), ch, m);
      chans := chans[ch := c.(members := [m] + c.members, users := c.users + 1)];
      users := users[m.nick := u.(channels := [ch] + u.channels, joined := u.joined + 1)];
    }

    /** Unlinking the first link of a chain that has value `x`. */
    static method Unlink(s: seq<string>, x: string) returns (r: seq<string>)
      ensures r == Unlinked(s, x)
    {
      var i := 0;
      while i < |s| && s[i] != x
        invariant 0 <= i <= |s| && Unlinked(s, x) == s[..i] + Unlinked(s[i..], x)
      {
        assert s[i..][1..] == s[i + 1..];
        assert s[..i] + ([s[i]] + Unlinked(s[i + 1..], x)) == s[..i + 1] + Unlinked(s[i + 1..], x);
        i := i + 1;
      }
      assert i < |s| ==> s[i..][1..] == s[i + 1..];
      r := if i < |s| then s[..i] + s[i + 1..] else s;
    }

    /** Unlinking a member. */
    static method UnlinkMember(ms: seq<Member>, who: string) returns (r: seq<Member>)
      requires Unique(Nicks(ms))
      ensures r == OutsideM(ms, {who})
    {
      hide OutsideM, Unique, Nicks, UnlinkedM;
      UnlinkedMIs(ms, who);
      var i := 0;
      assert ms[0..] == ms && [] + UnlinkedM(ms, who) == UnlinkedM(ms, who);
      while i < |ms| && ms[i].nick != who
        invariant 0 <= i <= |ms| && UnlinkedM(ms, who) == ms[..i] + UnlinkedM(ms[i..], who)
      {
        UnlinkedMStep(ms, who, i);
        i := i + 1;
      }
      UnlinkedMEnd(ms, who, i);
      r := if i < |ms| then ms[..i] + ms[i + 1..] else ms;
    }

    /** del_invite. */
    method DelInvite(who: string, ch: string)
      requires who in users && ch in chans
      modifies this
      ensures chans == old(chans)[ch := old(chans)[ch].(invites := Unlinked(old(chans)[ch].invites, who))]
      ensures users == old(users)[who := old(users)[who].(invited := Unlinked(old(users)[who].invited, ch))]
    {
      var i := Unlink(chans[ch].invites, who);
      chans := chans[ch := chans[ch].(invites := i)];
      i := Unlink(users[who].invited, ch);
      users := users[who := users[who].(invited := i)];
    }

    /** The loop of sub1_from_channel and of channel mode -i over the invitations to a channel. */
    method VoidInvites(ch: string)
      requires ch in chans && Unique(chans[ch].invites)
      requires forall n <- chans[ch].invites :: n in users && Unique(users[n].invited)
      modifies this
      ensures chans == old(chans)[ch := old(chans)[ch].(invites := [])]
      ensures users == Uninvited(old(users), old(chans)[ch].invites, ch)
    {
      hide Unique, Uninvited, Unlinked;
      ghost var c, us, cs := chans[ch], users, chans;
      ghost var gone := 0;
      UninviteNone(us, ch);
      assert c.invites[0..] == c.invites && c.invites[..0] == [];
      while |chans[ch].invites| > 0
        invariant 0 <= gone <= |c.invites| && ch in chans
        invariant chans == cs[ch := c.(invites := c.invites[gone..])]
        invariant users == Uninvited(us, c.invites[..gone], ch)
        decreases |chans[ch].invites|
      {
        UninviteStep(us, c.invites, gone, ch);
        DelInvite(chans[ch].invites[0], ch);
        gone := gone + 1;
      }
      assert c.invites[..gone] == c.invites;
    }

    /** sub1_from_channel, when the link of a member is gone but the count is not lowered. */
    method Sub1(ch: string)
      requires ch in chans && Unique(chans[ch].invites)
      requires forall n <- chans[ch].invites :: n in users && Unique(users[n].invited)
      modifies this
      ensures var c := old(chans)[ch];
        if c.users - 1 > 0 then users == old(users) && chans == old(chans)[ch := c.(users := c.users - 1)]
        else
          && chans == (if c.juped then old(chans)[ch := c.(users := 0, invites := [])] else old(chans) - {ch})
          && users == Uninvited(old(users), c.invites, ch)
    {
      hide Unique, Uninvited;
      chans := chans[ch := chans[ch].(users := chans[ch].users - 1)];
      if chans[ch].users <= 0 {
        chans := chans[ch := chans[ch].(users := 0)];
        VoidInvites(ch);
        if !chans[ch].juped { chans := chans - {ch}; }
      }
    }

    /** remove_user_from_channel, for a member. */
    method RemoveUser(who: string, ch: string)
      requires Valid() && ch in chans && who in Nicks(chans[ch].members)
      modifies this
      ensures Valid() && W() == Cut(old(W()), {who}, {ch})
    {
      hide Nicks, Unique, Cut, WorldOk, Uninvited, Unlinked, OutsideM, Outside, UserOk, ChannelOk;
      ghost var w := W();
      MemberKnown(w, who, ch);
      var ms := UnlinkMember(chans[ch].members, who);
      chans := chans[ch := chans[ch].(members := ms)];
      var us := Unlink(users[who].channels, ch);
      users := users[who := User(us, users[who].joined - 1, users[who].invited)];
      InviteesKnown(w, ch);
      Sub1(ch);
      RemovedIsCut(w, who, ch, ms, us, W());
      CutOk(w, {who}, {ch});
    }

    /** add_invite: an invitation given again moves to the end of the list, and in a full
        list the oldest one is dropped. */
    method AddInvite(who: string, ch: string)
      requires Valid() && who in users && ch in chans
      modifies this
      ensures Valid()
      ensures var was := Outside(old(users)[who].invited, {ch});
        var kept := if |was| >= MAXCHANNELSPERUSER then was[1..] else was;
        users == old(users)[who := old(users)[who].(invited := kept + [ch])]
      ensures chans.Keys == old(chans).Keys
      ensures chans[ch] == old(chans)[ch].(invites := [who] + Outside(old(chans)[ch].invites, {who}))
      ensures var was := Outside(old(users)[who].invited, {ch});
        forall x <- chans :: x != ch ==>
          chans[x] == if |was| >= MAXCHANNELSPERUSER && x == was[0]
                      then old(chans)[x].(invites := Outside(old(chans)[x].invites, {who})) else old(chans)[x]
    {
      hide Nicks, WorldOk, Outside, Unlinked, Unique;
      ghost var w0 := W();
      InviteUnlinked(w0, who, ch);
      DelInvite(who, ch);
      ghost var w1 := W();
      ghost var was := users[who].invited;
      ListBound(w1, who);
      if |users[who].invited| >= MAXCHANNELSPERUSER {
        var oldest := users[who].invited[0];
        FirstUnlinked(w1, who);
        InviteUnlinked(w1, who, oldest);
        DelInvite(who, oldest);
        ghost var i := InvitedRest(was, ch);
      }
      InviteAdded(W(), who, ch);
      chans := chans[ch := chans[ch].(invites := [who] + chans[ch].invites)];
      users := users[who := users[who].(invited := users[who].invited + [ch])];
    }

    /** The part of exit_one_client for a user: out of all channels, no invitations left. */
    method ExitUser(who: string)
      requires Valid() && who in users
      modifies this
      ensures Valid() && W() == Prune(old(W()), {who}) && WorldWithout(old(W()), {who}, W())
    {
      hide Nicks, Unique, Cut, WorldOk, Prune, WorldWithout;
      ghost var w := W();
      PruneSays(w, {who});
      ghost var gone: set<string> := {};
      CutNothing(w, who);
      while |users[who].channels| > 0
        invariant Valid() && who in users && W() == Cut(w, {who}, gone)
        decreases |users[who].channels|
      {
        var ch := users[who].channels[0];
        HeadChannel(W(), who);
        CutTwice(w, who, gone, {ch});
        CutShrinks(W(), who, ch);
        RemoveUser(who, ch);
        gone := gone + {ch};
      }
      CutEnough(w, who, gone);
      ghost var w1 := W();
      ghost var dropped: set<string> := {};
      VoidNothing(w1, who);
      while |users[who].invited| > 0
        invariant who in users && W() == Void(w1, who, dropped)
        decreases |users[who].invited|
      {
        var ch := users[who].invited[0];
        VoidStep(w1, who, dropped);
        DelInvite(who, ch);
        dropped := dropped + {ch};
      }
      VoidEnough(w1, who, dropped);
      PruneInSteps(w, who);
      users := users - {who};
      PruneOk(w, {who});
    }

    /** Channel mode j, from a local operator: a channel that is no longer juped and has no
        members is freed. */
    method SetJuped(ch: string, on: bool)
      requires Valid() && ch in chans
      modifies this
      ensures Valid()
      ensures if on || old(chans)[ch].members != [] then
                users == old(users) && chans == old(chans)[ch := old(chans)[ch].(juped := on)]
              else
                users == Uninvited(old(users), old(chans)[ch].invites, ch) && chans == old(chans) - {ch}
    {
      hide Nicks, Unique, Uninvited, WorldOk;
      JupedOk(W(), ch, on);
      chans := chans[ch := chans[ch].(juped := on)];
      if !on && chans[ch].users == 0 {
        DropEmptyOk(W(), ch);
        Sub1(ch);
      }
    }

    /** change_chan_flag on CHANOP or VOICE. */
    method ChangeFlag(ch: string, who: string, op: bool, add: bool)
      requires Valid() && ch in chans
      modifies this
      ensures Valid() && users == old(users)
      ensures chans == old(chans)[ch := old(chans)[ch].(members := Flagged(old(chans)[ch].members, who, op, add))]
    {
      FlaggedOk(W(), ch, Flagged(chans[ch].members, who, op, add));
      chans := chans[ch := chans[ch].(members := Flagged(chans[ch].members, who, op, add))];
    }

    /** set_deopped with CHANOP. */
    method SetDeopped(ch: string, who: string)
      requires Valid() && ch in chans
      modifies this
      ensures Valid() && users == old(users)
      ensures chans == old(chans)[ch := old(chans)[ch].(members := DeopMarked(old(chans)[ch].members, who))]
    {
      FlaggedOk(W(), ch, DeopMarked(chans[ch].members, who));
      chans := chans[ch := chans[ch].(members := DeopMarked(chans[ch].members, who))];
    }

    /** m_sjoin when its timestamp is older: op and voice are taken from everyone. */
    method StripChannel(ch: string)
      requires Valid() && ch in chans
      modifies this
      ensures Valid() && users == old(users)
      ensures chans == old(chans)[ch := old(chans)[ch].(members := Stripped(old(chans)[ch].members))]
    {
      FlaggedOk(W(), ch, Stripped(chans[ch].members));
      chans := chans[ch := chans[ch].(members := Stripped(chans[ch].members))];
    }
  }

  /** The users after the invitations of `ns` to channel `ch` are void. */
  function Uninvited(us: map<string, User>, ns: seq<string>, ch: string): map<string, User> {
    map n | n in us :: if n in ns then us[n].(invited := Outside(us[n].invited, {ch})) else us[n]
  }

  lemma UninviteNone(us: map<string, User>, ch: string)
    ensures Uninvited(us, [], ch) == us
  {
  }

  lemma UninviteStep(us: map<string, User>, ns: seq<string>, gone: nat, ch: string)
    requires Unique(ns) && gone < |ns| && forall n <- ns :: n in us && Unique(us[n].invited)
    ensures var n, v := ns[gone..][0], Uninvited(us, ns[..gone], ch);
      && n in v && v[n := v[n].(invited := Unlinked(v[n].invited, ch))] == Uninvited(us, ns[..gone + 1], ch)
    ensures Unlinked(ns[gone..], ns[gone..][0]) == ns[gone + 1..]
  {
    hide Outside;
    var n := ns[gone];
    assert n in ns && n !in ns[..gone];
    assert ns[..gone + 1] == ns[..gone] + [n];
    UnlinkedIs(us[n].invited, ch);
    assert ns[gone..][1..] == ns[gone + 1..];
    var v := Uninvited(us, ns[..gone], ch);
    var l, r := v[n := v[n].(invited := Unlinked(v[n].invited, ch))], Uninvited(us, ns[..gone + 1], ch);
    assert l.Keys == r.Keys;
    assert forall x <- r :: l[x] == r[x];
  }

  /** The link of `who` with one flag added or removed; gaining op ends being deopped. */
  function Flagged(ms: seq<Member>, who: string, op: bool, add: bool): (r: seq<Member>)
    ensures Nicks(r) == Nicks(ms)
  {
    var r := seq(|ms|, i requires 0 <= i < |ms| =>
      if ms[i].nick != who then ms[i]
      else if op then ms[i].(op := add, deopped := ms[i].deopped && !add)
      else ms[i].(voice := add));
    assert Nicks(r) == Nicks(ms);
    r
  }

  /** The link of `who` marked as deopped unless it has op. */
  function DeopMarked(ms: seq<Member>, who: string): (r: seq<Member>)
    ensures Nicks(r) == Nicks(ms)
  {
    var r := seq(|ms|, i requires 0 <= i < |ms| =>
      if ms[i].nick == who && !ms[i].op then ms[i].(deopped := true) else ms[i]);
    assert Nicks(r) == Nicks(ms);
    r
  }

  // ----- helpers -----

  lemma FlaggedOk(w: World, ch: string, ms: seq<Member>)
    requires WorldOk(w) && ch in w.chans && Nicks(ms) == Nicks(w.chans[ch].members)
    requires forall i :: 0 <= i < |ms| ==> !(ms[i].op && ms[i].deopped)
    ensures WorldOk(w.(chans := w.chans[ch := w.chans[ch].(members := ms)]))
  {
    hide Unique;
    var w' := w.(chans := w.chans[ch := w.chans[ch].(members := ms)]);
    forall x | x in w'.chans ensures ChannelOk(w', x, w'.chans[x]) { assert ChannelOk(w, x, w.chans[x]); }
    forall u | u in w'.users ensures UserOk(w', u, w'.users[u]) { assert UserOk(w, u, w.users[u]); }
  }

  function UnlinkedM(ms: seq<Member>, who: string): seq<Member> {
    if ms == [] then [] else if ms[0].nick == who then ms[1..] else [ms[0]] + UnlinkedM(ms[1..], who)
  }

  lemma UnlinkedMStep(ms: seq<Member>, who: string, i: nat)
    requires i < |ms| && ms[i].nick != who
    ensures ms[..i] + UnlinkedM(ms[i..], who) == ms[..i + 1] + UnlinkedM(ms[i + 1..], who)
  {
    assert ms[i..][1..] == ms[i + 1..];
  }

  lemma UnlinkedMEnd(ms: seq<Member>, who: string, i: nat)
    requires i <= |ms| && (i < |ms| ==> ms[i].nick == who)
    ensures ms[..i] + UnlinkedM(ms[i..], who) == if i < |ms| then ms[..i] + ms[i + 1..] else ms
  {
    if i < |ms| { assert ms[i..][1..] == ms[i + 1..]; }
  }

  lemma TailNicks(ms: seq<Member>)
    requires Unique(Nicks(ms)) && ms != []
    ensures Unique(Nicks(ms[1..])) && forall n <- Nicks(ms[1..]) :: n != ms[0].nick
  {
    var t := Nicks(ms[1..]);
    assert t == Nicks(ms)[1..];
    forall n | n in t ensures n != ms[0].nick {
      var j :| 0 <= j < |t| && t[j] == n;
      assert Nicks(ms)[0] != Nicks(ms)[j + 1];
    }
  }

  lemma {:induction false} UnlinkedMIs(ms: seq<Member>, who: string)
    requires Unique(Nicks(ms))
    ensures UnlinkedM(ms, who) == OutsideM(ms, {who})
  {
    hide Nicks, Unique;
    if ms != [] {
      TailNicks(ms);
      UnlinkedMIs(ms[1..], who);
      if ms[0].nick == who {
        OutsideMNone(ms[1..], {who});
        assert [] + ms[1..] == ms[1..];
      }
    }
  }

  lemma JupedOk(w: World, ch: string, on: bool)
    requires WorldOk(w) && ch in w.chans
    ensures WorldOk(w.(chans := w.chans[ch := w.chans[ch].(juped := on)]))
    ensures w.chans[ch].users == |w.chans[ch].members|
  {
    hide Unique, Nicks;
    var w' := w.(chans := w.chans[ch := w.chans[ch].(juped := on)]);
    assert ChannelOk(w, ch, w.chans[ch]);
    forall x | x in w'.chans ensures ChannelOk(w', x, w'.chans[x]) { assert ChannelOk(w, x, w.chans[x]); }
    forall u | u in w'.users ensures UserOk(w', u, w'.users[u]) { assert UserOk(w, u, w.users[u]); }
  }

  /** The world after the invitations to a channel are void. */
  function AllUninvited(w: World, ch: string): World
    requires ch in w.chans
  {
    World(Uninvited(w.users, w.chans[ch].invites, ch), w.chans[ch := w.chans[ch].(invites := [])])
  }

  lemma UninvitedOk(w: World, ch: string)
    requires WorldOk(w) && ch in w.chans
    ensures WorldOk(AllUninvited(w, ch))
  {
    hide ChannelOk, UserOk;
    var w' := AllUninvited(w, ch);
    forall x | x in w'.chans ensures ChannelOk(w', x, w'.chans[x]) { UninvitedChannel(w, ch, x); }
    forall u | u in w'.users ensures UserOk(w', u, w'.users[u]) { UninvitedUser(w, ch, u); }
  }

  lemma UninvitedChannel(w: World, ch: string, x: string)
    requires WorldOk(w) && ch in w.chans && x in w.chans
    ensures ChannelOk(AllUninvited(w, ch), x, AllUninvited(w, ch).chans[x])
  {
    hide Unique, Outside, Nicks, UserOk;
    EmptyUnique();
    assert ChannelOk(w, x, w.chans[x]);
  }

  lemma UninvitedUser(w: World, ch: string, u: string)
    requires WorldOk(w) && ch in w.chans && u in w.users
    ensures u in AllUninvited(w, ch).users && UserOk(AllUninvited(w, ch), u, AllUninvited(w, ch).users[u])
  {
    hide Unique, Outside, Nicks, ChannelOk;
    assert UserOk(w, u, w.users[u]);
    Symmetric(w, u, ch);
    OutsideUnique(w.users[u].invited, {ch});
  }

  lemma DropEmptyOk(w: World, ch: string)
    requires WorldOk(w) && ch in w.chans && w.chans[ch].members == []
    ensures WorldOk(World(Uninvited(w.users, w.chans[ch].invites, ch), w.chans - {ch}))
    ensures Unique(w.chans[ch].invites)
    ensures forall n <- w.chans[ch].invites :: n in w.users && Unique(w.users[n].invited)
  {
    hide Unique, Outside;
    var c := w.chans[ch];
    var w' := World(Uninvited(w.users, c.invites, ch), w.chans - {ch});
    assert ChannelOk(w, ch, c);
    forall n | n in c.invites ensures n in w.users && Unique(w.users[n].invited) { assert UserOk(w, n, w.users[n]); }
    assert Nicks(c.members) == [];
    hide Nicks;
    forall x | x in w'.chans ensures ChannelOk(w', x, w'.chans[x]) { assert ChannelOk(w, x, w.chans[x]); }
    forall u | u in w'.users ensures UserOk(w', u, w'.users[u]) {
      assert UserOk(w, u, w.users[u]);
      Symmetric(w, u, ch);
      OutsideUnique(w.users[u].invited, {ch});
    }
  }

  lemma RegisterOk(w: World, who: string)
    requires WorldOk(w) && who !in w.users
    ensures WorldOk(w.(users := w.users[who := User([], 0, [])]))
  {
    hide Unique, Nicks;
    var w' := w.(users := w.users[who := User([], 0, [])]);
    EmptyUnique();
    forall x | x in w'.chans ensures ChannelOk(w', x, w'.chans[x]) { assert ChannelOk(w, x, w.chans[x]); }
    forall u | u in w'.users ensures UserOk(w', u, w'.users[u]) { if u != who { assert UserOk(w, u, w.users[u]); } }
  }

  lemma EmptyUnique()
    ensures Unique<string>([])
  {
  }

  lemma CreateOk(w: World, name: string)
    requires WorldOk(w)
    ensures name !in w.chans ==> WorldOk(w.(chans := w.chans[name := Channel([], 0, [], false)]))
  {
    hide Unique;
    EmptyUnique();
    assert Nicks([]) == [];
    if name !in w.chans {
      var w' := w.(chans := w.chans[name := Channel([], 0, [], false)]);
      forall x | x in w'.chans
        ensures ChannelOk(w', x, w'.chans[x])
      {
        if x != name { assert ChannelOk(w, x, w.chans[x]); }
      }
      forall u | u in w'.users ensures UserOk(w', u, w'.users[u]) { assert UserOk(w, u, w.users[u]); }
    }
  }

  lemma AddUserOk(w: World, ch: string, m: Member)
    requires WorldOk(w) && ch in w.chans && m.nick in w.users && m.nick !in Nicks(w.chans[ch].members)
        && !(m.op && m.deopped)
    ensures var c, u := w.chans[ch], w.users[m.nick];
      && c.users == |c.members| && u.joined == |u.channels|
      && WorldOk(World(w.users[m.nick := u.(channels := [ch] + u.channels, joined := |u.channels| + 1)],
                       w.chans[ch := c.(members := [m] + c.members, users := |c.members| + 1)]))
  {
    hide Unique, Nicks;
    var c, u := w.chans[ch], w.users[m.nick];
    var w' := World(w.users[m.nick := u.(channels := [ch] + u.channels, joined := |u.channels| + 1)],
                    w.chans[ch := c.(members := [m] + c.members, users := |c.members| + 1)]);
    assert ChannelOk(w, ch, c) && UserOk(w, m.nick, u);
    Symmetric(w, m.nick, ch);
    NicksCons(m, c.members);
    UniqueCons(m.nick, Nicks(c.members));
    UniqueCons(ch, u.channels);
    forall x | x in w'.chans ensures ChannelOk(w', x, w'.chans[x]) { AddedChannelOk(w, ch, m, x); }
    forall n | n in w'.users ensures UserOk(w', n, w'.users[n]) { AddedUserOk(w, ch, m, n); }
  }

  function Added(w: World, ch: string, m: Member): World
    requires ch in w.chans && m.nick in w.users
  {
    var c, u := w.chans[ch], w.users[m.nick];
    World(w.users[m.nick := u.(channels := [ch] + u.channels, joined := |u.channels| + 1)],
          w.chans[ch := c.(members := [m] + c.members, users := |c.members| + 1)])
  }

  lemma AddedChannelOk(w: World, ch: string, m: Member, x: string)
    requires WorldOk(w) && ch in w.chans && m.nick in w.users && !(m.op && m.deopped) && x in w.chans
    requires Unique([m.nick] + Nicks(w.chans[ch].members))
        && Nicks([m] + w.chans[ch].members) == [m.nick] + Nicks(w.chans[ch].members)
    ensures ChannelOk(Added(w, ch, m), x, Added(w, ch, m).chans[x])
  {
    hide Unique, Nicks;
    assert ChannelOk(w, x, w.chans[x]);
  }

  lemma AddedUserOk(w: World, ch: string, m: Member, n: string)
    requires WorldOk(w) && ch in w.chans && m.nick in w.users && n in w.users && Unique([ch] + w.users[m.nick].channels)
    requires Nicks([m] + w.chans[ch].members) == [m.nick] + Nicks(w.chans[ch].members)
    ensures UserOk(Added(w, ch, m), n, Added(w, ch, m).users[n])
  {
    hide Unique, Nicks;
    assert UserOk(w, n, w.users[n]);
  }

  lemma MemberKnown(w: World, who: string, ch: string)
    requires WorldOk(w) && ch in w.chans && who in Nicks(w.chans[ch].members)
    ensures who in w.users && Unique(Nicks(w.chans[ch].members)) && Unique(w.users[who].channels)
    ensures ch in w.users[who].channels
    ensures UserOk(w, who, w.users[who]) && ChannelOk(w, ch, w.chans[ch])
  {
    hide Nicks, Unique;
    assert ChannelOk(w, ch, w.chans[ch]);
    assert UserOk(w, who, w.users[who]);
  }

  lemma InviteesKnown(w: World, ch: string)
    requires WorldOk(w) && ch in w.chans
    ensures Unique(w.chans[ch].invites)
    ensures forall n <- w.chans[ch].invites :: n in w.users && Unique(w.users[n].invited)
  {
    hide Nicks, Unique;
    assert ChannelOk(w, ch, w.chans[ch]);
    forall n | n in w.chans[ch].invites ensures n in w.users && Unique(w.users[n].invited) {
      assert UserOk(w, n, w.users[n]);
    }
  }

  lemma RemovedIsCut(w: World, who: string, ch: string, ms: seq<Member>, us: seq<string>, w': World)
    requires WorldOk(w) && ch in w.chans && who in Nicks(w.chans[ch].members) && who in w.users
    requires ms == OutsideM(w.chans[ch].members, {who}) && us == Unlinked(w.users[who].channels, ch)
    requires var c, users1 := w.chans[ch].(members := ms),
        w.users[who := User(us, w.users[who].joined - 1, w.users[who].invited)];
      if c.users - 1 > 0 then w'.users == users1 && w'.chans == w.chans[ch := c.(users := c.users - 1)]
      else
        && w'.chans == (if c.juped then w.chans[ch := c.(users := 0, invites := [])] else w.chans - {ch})
        && w'.users == Uninvited(users1, c.invites, ch)
    ensures w' == Cut(w, {who}, {ch})
  {
    hide Nicks, Unique, OutsideM, Outside, Unlinked, Cut, Emptied, WorldOk, ChannelOk, UserOk;
    MemberKnown(w, who, ch);
    UnlinkedIs(w.users[who].channels, ch);
    var c, r := w.chans[ch], Cut(w, {who}, {ch});
    CountOf(w, who, ch);
    CutIs(w, {who}, {ch});
    forall n | n in w.users ensures n in w'.users && w'.users[n] == r.users[n] { RemovedUser(w, who, ch, n); }
    SameWorld(w', r);
  }

  lemma CountOf(w: World, who: string, ch: string)
    requires WorldOk(w) && ch in w.chans && who in Nicks(w.chans[ch].members)
    ensures var c := w.chans[ch];
      && c.users == |c.members| && |OutsideM(c.members, {who})| == c.users - 1
      && (Emptied(c, {who}) <==> c.users - 1 <= 0)
  {
    hide Nicks, Unique, OutsideM;
    assert ChannelOk(w, ch, w.chans[ch]);
    OneLess(w.chans[ch].members, who);
  }

  lemma RemovedUser(w: World, who: string, ch: string, n: string)
    requires WorldOk(w) && ch in w.chans && n in w.users && who in w.users && ch in w.users[who].channels
    ensures w.users[n].joined == |w.users[n].channels|
    ensures Unique(w.users[who].channels)
    ensures CutUser(w, n, {who}, {ch})
         == var us := if n == who then Outside(w.users[n].channels, {ch}) else w.users[n].channels;
            User(us, if n == who then w.users[n].joined - 1 else w.users[n].joined,
                 if Emptied(w.chans[ch], {who}) && n in w.chans[ch].invites then Outside(w.users[n].invited, {ch})
                 else w.users[n].invited)
  {
    hide Nicks, Unique, Outside, Emptied;
    assert UserOk(w, n, w.users[n]) && UserOk(w, who, w.users[who]);
    Symmetric(w, n, ch);
    UnlinkedIs(w.users[who].channels, ch);
    assert EmptiedOf(w, {who}, {ch}) == if Emptied(w.chans[ch], {who}) then {ch} else {};
    if !Emptied(w.chans[ch], {who}) || n !in w.chans[ch].invites {
      OutsideNone(w.users[n].invited, EmptiedOf(w, {who}, {ch}));
    }
  }

  lemma OneLess(ms: seq<Member>, who: string)
    requires Unique(Nicks(ms)) && who in Nicks(ms)
    ensures |OutsideM(ms, {who})| == |ms| - 1 && ms != []
  {
    NicksOutside(ms, {who});
    UnlinkedIs(Nicks(ms), who);
  }

  lemma InviteUnlinked(w: World, who: string, ch: string)
    requires WorldOk(w) && who in w.users && ch in w.chans
    ensures Unique(w.users[who].invited) && Unique(w.chans[ch].invites)
    ensures Unlinked(w.users[who].invited, ch) == Outside(w.users[who].invited, {ch})
    ensures Unlinked(w.chans[ch].invites, who) == Outside(w.chans[ch].invites, {who})
    ensures WorldOk(World(w.users[who := w.users[who].(invited := Outside(w.users[who].invited, {ch}))],
                          w.chans[ch := w.chans[ch].(invites := Outside(w.chans[ch].invites, {who}))]))
    ensures forall x <- w.users[who].invited :: x in w.chans
    ensures |w.users[who].invited| <= MAXCHANNELSPERUSER
    ensures ch !in Outside(w.users[who].invited, {ch})
  {
    hide Nicks, Unique, Outside, Unlinked, WorldOk, UserOk, ChannelOk;
    InviteLists(w, who, ch);
    UnlinkedIs(w.users[who].invited, ch);
    UnlinkedIs(w.chans[ch].invites, who);
    InviteGone(w, who, ch);
  }

  lemma InviteLists(w: World, who: string, ch: string)
    requires WorldOk(w) && who in w.users && ch in w.chans
    ensures Unique(w.users[who].invited) && Unique(w.chans[ch].invites)
    ensures forall x <- w.users[who].invited :: x in w.chans
    ensures |w.users[who].invited| <= MAXCHANNELSPERUSER
  {
    hide Nicks, Unique;
    assert UserOk(w, who, w.users[who]) && ChannelOk(w, ch, w.chans[ch]);
  }

  /** The world without the invitation of `who` to `ch`. */
  function Disinvited(w: World, who: string, ch: string): World
    requires who in w.users && ch in w.chans
  {
    World(w.users[who := w.users[who].(invited := Outside(w.users[who].invited, {ch}))],
          w.chans[ch := w.chans[ch].(invites := Outside(w.chans[ch].invites, {who}))])
  }

  lemma InviteGone(w: World, who: string, ch: string)
    requires WorldOk(w) && who in w.users && ch in w.chans
    ensures WorldOk(Disinvited(w, who, ch))
  {
    hide ChannelOk, UserOk;
    var w' := Disinvited(w, who, ch);
    forall x | x in w'.chans ensures ChannelOk(w', x, w'.chans[x]) { InviteGoneChannel(w, who, ch, x); }
    forall u | u in w'.users ensures UserOk(w', u, w'.users[u]) { InviteGoneUser(w, who, ch, u); }
  }

  lemma InviteGoneChannel(w: World, who: string, ch: string, x: string)
    requires WorldOk(w) && who in w.users && ch in w.chans && x in w.chans
    ensures ChannelOk(Disinvited(w, who, ch), x, Disinvited(w, who, ch).chans[x])
  {
    hide Nicks, Unique, Outside;
    assert ChannelOk(w, x, w.chans[x]);
    InviteLists(w, who, ch);
    OutsideUnique(w.chans[ch].invites, {who});
  }

  lemma InviteGoneUser(w: World, who: string, ch: string, u: string)
    requires WorldOk(w) && who in w.users && ch in w.chans && u in w.users
    ensures UserOk(Disinvited(w, who, ch), u, Disinvited(w, who, ch).users[u])
  {
    hide Nicks, Unique, Outside;
    assert UserOk(w, u, w.users[u]);
    InviteLists(w, who, ch);
    OutsideUnique(w.users[who].invited, {ch});
  }

  lemma ListBound(w: World, who: string)
    requires WorldOk(w) && who in w.users
    ensures |w.users[who].invited| <= MAXCHANNELSPERUSER
  {
    assert UserOk(w, who, w.users[who]);
  }

  lemma InvitedRest(was: seq<string>, ch: string) returns (i: nat)
    requires was != [] && ch !in was
    ensures ch !in was[1..] && was[0] != ch
  {
    i := 0;
  }

  lemma FirstUnlinked(w: World, who: string)
    requires WorldOk(w) && who in w.users && w.users[who].invited != []
    ensures Outside(w.users[who].invited, {w.users[who].invited[0]}) == w.users[who].invited[1..]
    ensures w.users[who].invited[0] in w.chans
    ensures |w.users[who].invited| <= MAXCHANNELSPERUSER
  {
    hide Nicks;
    assert UserOk(w, who, w.users[who]);
    UnlinkedIs(w.users[who].invited, w.users[who].invited[0]);
    assert w.users[who].invited[0] in w.users[who].invited;
  }

  lemma InviteAdded(w: World, who: string, ch: string)
    requires WorldOk(w) && who in w.users && ch in w.chans && ch !in w.users[who].invited
    requires |w.users[who].invited| < MAXCHANNELSPERUSER
    ensures WorldOk(World(w.users[who := w.users[who].(invited := w.users[who].invited + [ch])],
                          w.chans[ch := w.chans[ch].(invites := [who] + w.chans[ch].invites)]))
  {
    hide Nicks, Unique;
    Symmetric(w, who, ch);
    assert UserOk(w, who, w.users[who]) && ChannelOk(w, ch, w.chans[ch]);
    UniqueCons(ch, w.users[who].invited);
    UniqueCons(who, w.chans[ch].invites);
    var w' := World(w.users[who := w.users[who].(invited := w.users[who].invited + [ch])],
                    w.chans[ch := w.chans[ch].(invites := [who] + w.chans[ch].invites)]);
    forall x | x in w'.chans ensures ChannelOk(w', x, w'.chans[x]) { InvitedChannelOk(w, who, ch, x); }
    forall u | u in w'.users ensures UserOk(w', u, w'.users[u]) { InvitedUserOk(w, who, ch, u); }
  }

  function Invited(w: World, who: string, ch: string): World
    requires who in w.users && ch in w.chans
  {
    World(w.users[who := w.users[who].(invited := w.users[who].invited + [ch])],
          w.chans[ch := w.chans[ch].(invites := [who] + w.chans[ch].invites)])
  }

  lemma InvitedChannelOk(w: World, who: string, ch: string, x: string)
    requires WorldOk(w) && who in w.users && ch in w.chans && x in w.chans && Unique([who] + w.chans[ch].invites)
    ensures ChannelOk(Invited(w, who, ch), x, Invited(w, who, ch).chans[x])
  {
    hide Unique, Nicks;
    assert ChannelOk(w, x, w.chans[x]);
  }

  lemma InvitedUserOk(w: World, who: string, ch: string, u: string)
    requires WorldOk(w) && who in w.users && ch in w.chans && u in w.users && Unique(w.users[who].invited + [ch])
    requires |w.users[who].invited| < MAXCHANNELSPERUSER
    ensures UserOk(Invited(w, who, ch), u, Invited(w, who, ch).users[u])
  {
    hide Unique, Nicks;
    assert UserOk(w, u, w.users[u]);
  }

  lemma CutNothing(w: World, who: string)
    requires WorldOk(w)
    ensures Cut(w, {who}, {}) == w
  {
    hide Nicks, Unique, OutsideM, Outside;
    var r := Cut(w, {who}, {});
    assert EmptiedOf(w, {who}, {}) == {};
    forall u | u in w.users ensures r.users[u] == w.users[u] {
      assert UserOk(w, u, w.users[u]);
      OutsideNone(w.users[u].channels, {});
      OutsideNone(w.users[u].invited, {});
    }
    assert r.users == w.users && r.chans == w.chans;
  }

  lemma HeadChannel(w: World, who: string)
    requires WorldOk(w) && who in w.users && w.users[who].channels != []
    ensures var ch := w.users[who].channels[0]; ch in w.chans && who in Nicks(w.chans[ch].members)
  {
    hide Nicks, Unique;
    assert UserOk(w, who, w.users[who]);
    assert w.users[who].channels[0] in w.users[who].channels;
  }

  lemma CutShrinks(w: World, who: string, ch: string)
    requires WorldOk(w) && who in w.users && ch in w.users[who].channels
    ensures var w' := Cut(w, {who}, {ch});
      who in w'.users && |w'.users[who].channels| < |w.users[who].channels|
  {
    hide Nicks, Unique, OutsideM, Outside;
    assert UserOk(w, who, w.users[who]);
    UnlinkedIs(w.users[who].channels, ch);
  }

  /** Leaving all channels one is in is leaving all channels. */
  lemma CutEnough(w: World, who: string, gone: set<string>)
    requires WorldOk(w) && who in w.users && Cut(w, {who}, gone).users[who].channels == []
    ensures Cut(w, {who}, gone) == Cut(w, {who}, w.chans.Keys)
  {
    hide Nicks, Unique, OutsideM, Outside, Cut, CutChannel, Emptied, WorldOk, UserOk, ChannelOk, CutUser;
    var l, r := Cut(w, {who}, gone), Cut(w, {who}, w.chans.Keys);
    CutIs(w, {who}, gone);
    CutIs(w, {who}, w.chans.Keys);
    InAllOf(w, who, gone);
    forall ch | ch in w.chans && ch !in gone
      ensures !Emptied(w.chans[ch], {who}) && CutChannel(w.chans[ch], {who}) == w.chans[ch]
    {
      NotIn(w, who, ch);
    }
    assert EmptiedOf(w, {who}, gone) == EmptiedOf(w, {who}, w.chans.Keys);
    forall u | u in w.users ensures CutUser(w, u, {who}, gone) == CutUser(w, u, {who}, w.chans.Keys) {
      SameCutUser(w, who, u, gone);
    }
    SameWorld(l, r);
  }

  lemma PruneInSteps(w: World, who: string)
    ensures Prune(w, {who}) == Forget(Cut(w, {who}, w.chans.Keys), {who})
  {
  }

  lemma InAllOf(w: World, who: string, gone: set<string>)
    requires WorldOk(w) && who in w.users && Cut(w, {who}, gone).users[who].channels == []
    ensures forall ch <- w.users[who].channels :: ch in gone && ch in w.chans
  {
    hide Nicks, Unique, OutsideM, Outside, CutChannel, Emptied;
    assert UserOk(w, who, w.users[who]);
    OutsideAll(w.users[who].channels, gone);
  }

  lemma NotIn(w: World, who: string, ch: string)
    requires WorldOk(w) && who in w.users && ch in w.chans && ch !in w.users[who].channels
    ensures !Emptied(w.chans[ch], {who}) && CutChannel(w.chans[ch], {who}) == w.chans[ch]
  {
    hide Nicks, Unique, OutsideM;
    Symmetric(w, who, ch);
    assert ChannelOk(w, ch, w.chans[ch]);
    OutsideMNone(w.chans[ch].members, {who});
  }

  lemma SameCutUser(w: World, who: string, u: string, gone: set<string>)
    requires WorldOk(w) && who in w.users && u in w.users
    requires forall ch <- w.users[who].channels :: ch in gone && ch in w.chans
    requires EmptiedOf(w, {who}, gone) == EmptiedOf(w, {who}, w.chans.Keys)
    ensures CutUser(w, u, {who}, gone) == CutUser(w, u, {who}, w.chans.Keys)
  {
    hide Outside, EmptiedOf;
    OutsideSame(w.users[who].channels, gone, w.chans.Keys);
  }

  /** The world with the invitations of `who` to the channels `out` void. */
  function Void(w: World, who: string, out: set<string>): World
    requires who in w.users
  {
    World(w.users[who := w.users[who].(invited := Outside(w.users[who].invited, out))],
          map ch | ch in w.chans ::
            if ch in out then w.chans[ch].(invites := Outside(w.chans[ch].invites, {who})) else w.chans[ch])
  }

  lemma VoidNothing(w: World, who: string)
    requires who in w.users
    ensures Void(w, who, {}) == w
  {
    hide Outside;
    OutsideNone(w.users[who].invited, {});
    assert Void(w, who, {}).users == w.users;
    assert Void(w, who, {}).chans == w.chans;
  }

  lemma VoidStep(w: World, who: string, out: set<string>)
    requires WorldOk(w) && who in w.users && Void(w, who, out).users[who].invited != []
    ensures var v := Void(w, who, out);
      var ch := v.users[who].invited[0];
      && ch in v.chans && who in v.users
      && World(v.users[who := v.users[who].(invited := Unlinked(v.users[who].invited, ch))],
               v.chans[ch := v.chans[ch].(invites := Unlinked(v.chans[ch].invites, who))])
         == Void(w, who, out + {ch})
      && |Unlinked(v.users[who].invited, ch)| < |v.users[who].invited|
  {
    hide Nicks, Unique, Outside, Unlinked, Void, WorldOk;
    var v := Void(w, who, out);
    VoidIs(w, who, out);
    var ch := v.users[who].invited[0];
    assert ch in v.users[who].invited && ch in w.users[who].invited && ch !in out;
    InvitedKnown(w, who, ch);
    OutsideUnique(w.users[who].invited, out);
    UnlinkedIs(v.users[who].invited, ch);
    UnlinkedIs(w.chans[ch].invites, who);
    OutsideTwice(w.users[who].invited, out, {ch});
    VoidIs(w, who, out + {ch});
    SameWorld(World(v.users[who := v.users[who].(invited := Unlinked(v.users[who].invited, ch))],
                    v.chans[ch := v.chans[ch].(invites := Unlinked(v.chans[ch].invites, who))]),
              Void(w, who, out + {ch}));
  }

  lemma InvitedKnown(w: World, who: string, ch: string)
    requires WorldOk(w) && who in w.users && ch in w.users[who].invited
    ensures ch in w.chans && Unique(w.chans[ch].invites) && Unique(w.users[who].invited)
  {
    hide Nicks, Unique;
    assert UserOk(w, who, w.users[who]);
    assert ChannelOk(w, ch, w.chans[ch]);
  }

  lemma VoidIs(w: World, who: string, out: set<string>)
    requires who in w.users
    ensures var r := Void(w, who, out);
      && (forall ch :: ch in r.chans <==> ch in w.chans)
      && (forall ch <- r.chans :: r.chans[ch]
            == if ch in out then w.chans[ch].(invites := Outside(w.chans[ch].invites, {who})) else w.chans[ch])
      && (forall u :: u in r.users <==> u in w.users)
      && (forall u <- r.users :: r.users[u]
            == if u == who then w.users[u].(invited := Outside(w.users[who].invited, out)) else w.users[u])
  {
    hide Outside;
  }

  lemma VoidEnough(w: World, who: string, out: set<string>)
    requires WorldOk(w) && who in w.users && Void(w, who, out).users[who].invited == []
    ensures var v := Void(w, who, out); v.(users := v.users - {who}) == Forget(w, {who})
  {
    hide Nicks, Unique, Outside, Void, WorldOk;
    var v := Void(w, who, out);
    VoidIs(w, who, out);
    OutsideAll(w.users[who].invited, out);
    forall ch | ch in w.chans && ch !in out ensures Outside(w.chans[ch].invites, {who}) == w.chans[ch].invites {
      Symmetric(w, who, ch);
      OutsideNone(w.chans[ch].invites, {who});
    }
    SameWorld(v.(users := v.users - {who}), Forget(w, {who}));
  }
}
