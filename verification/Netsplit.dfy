/** Removing a server with all that depends on it (src/client.c): recurse_remove_clients
    and exit_one_client, and the two ways in which neighbours are told. */
module Netsplit {
  import opened Chains
  import opened Memberships

  type Name = string

  /** A client record. For a server: its lists of servers and users and their count. */
  datatype Client = Client(server: bool, servptr: Name, servers: seq<Name>, users: seq<Name>, usercnt: int)

  /** What a server knows: itself, all clients, the global client list, and the channels. */
  datatype Net = Net(me: Name, clients: map<Name, Client>, global: seq<Name>, world: World)

  /** Distance from this server; it grows along the tree. */
  type Depth = Name -> nat

  predicate ClientOk(n: Net, depth: Depth, c: Name)
    requires c in n.clients
  {
    var x := n.clients[c];
    && Unique(x.servers) && Unique(x.users) && x.usercnt == |x.users|
    && (!x.server ==> x.servers == [] && x.users == [])
    && (forall s <- x.servers :: s in n.clients && s != n.me && n.clients[s].server && n.clients[s].servptr == c)
    && (forall u <- x.users :: u in n.clients && u != n.me && !n.clients[u].server && n.clients[u].servptr == c)
    && (c != n.me ==>
          && x.servptr in n.clients && n.clients[x.servptr].server && depth(x.servptr) < depth(c)
          && c in if x.server then n.clients[x.servptr].servers else n.clients[x.servptr].users)
  }

  ghost predicate NetOk(n: Net, depth: Depth) {
    && n.me in n.clients && n.clients[n.me].server
    && (forall c <- n.clients :: ClientOk(n, depth, c))
    && Unique(n.global) && (forall c :: c in n.global <==> c in n.clients)
    && WorldOk(n.world)
    && (forall u :: u in n.world.users <==> u in n.clients && !n.clients[u].server)
  }

  /** `c` is `s` or depends on it. */
  ghost predicate Below(n: Net, depth: Depth, s: Name, c: Name)
    decreases depth(c)
  {
    && c in n.clients
    && (c == s || (c != n.me && depth(n.clients[c].servptr) < depth(c) && Below(n, depth, s, n.clients[c].servptr)))
  }

  ghost function AllBelow(n: Net, depth: Depth, s: Name): set<Name> { set c | c in n.clients && Below(n, depth, s, c) }

  ghost function StrictlyBelow(n: Net, depth: Depth, s: Name): set<Name> { AllBelow(n, depth, s) - {s} }

  // ----- the network without some clients -----

  function PruneClient(x: Client, dead: set<Name>): Client {
    var us := Outside(x.users, dead);
    x.(servers := Outside(x.servers, dead), users := us, usercnt := |us|)
  }

  /** The network without the clients `dead`: every list loses them and keeps its order. */
  function PruneNet(n: Net, dead: set<Name>): Net {
    Net(n.me, map c | c in n.clients && c !in dead :: PruneClient(n.clients[c], dead),
        Outside(n.global, dead), Prune(n.world, dead))
  }

  /** The network after the clients `dead` have gone, said of each list: nobody else goes, everyone else is where
      it was, and what stays keeps its order. */
  ghost predicate NetWithout(n: Net, dead: set<Name>, r: Net) {
    && r.me == n.me && r.clients.Keys == n.clients.Keys - dead
    && (forall c <- r.clients ::
          && r.clients[c].server == n.clients[c].server && r.clients[c].servptr == n.clients[c].servptr
          && Selection(n.clients[c].servers, r.clients[c].servers, NotAmong(dead))
          && Selection(n.clients[c].users, r.clients[c].users, NotAmong(dead))
          && r.clients[c].usercnt == |r.clients[c].users|)
    && Selection(n.global, r.global, NotAmong(dead))
    && WorldWithout(n.world, dead, r.world)
  }

  lemma PruneNetSays(n: Net, depth: Depth, dead: set<Name>)
    requires NetOk(n, depth)
    ensures NetWithout(n, dead, PruneNet(n, dead))
  {
    hide Selection, Prune, WorldOk, WorldWithout, ClientOk, Outside;
    var r := PruneNet(n, dead);
    PruneSays(n.world, dead);
    OutsideSelects(n.global, dead);
    forall c | c in r.clients
      ensures Selection(n.clients[c].servers, r.clients[c].servers, NotAmong(dead))
      ensures Selection(n.clients[c].users, r.clients[c].users, NotAmong(dead))
    {
      OutsideSelects(n.clients[c].servers, dead);
      OutsideSelects(n.clients[c].users, dead);
    }
  }

  /** A set that can go as a whole: with a server goes everything on it. */
  ghost predicate Closed(n: Net, dead: set<Name>) {
    && n.me !in dead
    && forall c <- n.clients :: c != n.me && n.clients[c].servptr in dead ==> c in dead
  }

  lemma PruneNetOk(n: Net, depth: Depth, dead: set<Name>)
    requires NetOk(n, depth) && Closed(n, dead)
    ensures NetOk(PruneNet(n, dead), depth)
  {
    hide ClientOk, Unique, Outside, Prune, WorldOk;
    var r := PruneNet(n, dead);
    forall c | c in r.clients ensures ClientOk(r, depth, c) { PruneClientOk(n, depth, dead, c); }
    OutsideUnique(n.global, dead);
    PruneOk(n.world, dead);
    assert forall u :: u in n.world.users.Keys <==> u in n.world.users;
    assert forall u :: u in r.world.users.Keys <==> u in r.world.users;
  }

  lemma PruneClientOk(n: Net, depth: Depth, dead: set<Name>, c: Name)
    requires NetOk(n, depth) && Closed(n, dead) && c in n.clients && c !in dead
    ensures ClientOk(PruneNet(n, dead), depth, c)
  {
    hide Unique, Outside, Prune, WorldOk, PruneClient, Closed, NetOk;
    Local(n, depth, c);
    Me(n, depth);
    var r := PruneNet(n, dead);
    PruneClientIs(n.clients[c], dead);
    forall s | s in r.clients[c].servers || s in r.clients[c].users
      ensures s in r.clients && r.clients[s].server == n.clients[s].server
      ensures s in r.clients && r.clients[s].servptr == n.clients[s].servptr
    {
      PruneClientIs(n.clients[s], dead);
    }
    if c != n.me {
      var p := n.clients[c].servptr;
      assert p !in dead by { StaysToo(n, dead, c); }
      PruneClientIs(n.clients[p], dead);
    }
  }

  lemma StaysToo(n: Net, dead: set<Name>, c: Name)
    requires Closed(n, dead) && c in n.clients && c != n.me && c !in dead
    ensures n.clients[c].servptr !in dead
  {
  }

  lemma PruneClientIs(x: Client, dead: set<Name>)
    ensures var y := PruneClient(x, dead);
      && y.server == x.server && y.servptr == x.servptr && y.usercnt == |y.users|
      && (forall s :: s in y.servers <==> s in x.servers && s !in dead)
      && (forall s :: s in y.users <==> s in x.users && s !in dead)
      && (Unique(x.servers) ==> Unique(y.servers)) && (Unique(x.users) ==> Unique(y.users))
      && (x.servers == [] ==> y.servers == []) && (x.users == [] ==> y.users == [])
  {
    hide Unique, Outside;
    if Unique(x.servers) { OutsideUnique(x.servers, dead); }
    if Unique(x.users) { OutsideUnique(x.users, dead); }
    OutsideAll(x.servers, dead);
    OutsideAll(x.users, dead);
  }

  lemma PruneNetTwice(n: Net, a: set<Name>, b: set<Name>)
    requires WorldOk(n.world)
    ensures PruneNet(PruneNet(n, a), b) == PruneNet(n, a + b)
  {
    hide Outside, Prune, WorldOk;
    var l, r := PruneNet(PruneNet(n, a), b), PruneNet(n, a + b);
    OutsideTwice(n.global, a, b);
    PruneTwice(n.world, a, b);
    forall c | c in r.clients ensures c in l.clients && l.clients[c] == r.clients[c] {
      OutsideTwice(n.clients[c].servers, a, b);
      OutsideTwice(n.clients[c].users, a, b);
    }
    assert l.clients == r.clients;
  }

  /** Who depends on whom does not change for those who stay. */
  lemma {:induction false} BelowPruned(n: Net, depth: Depth, dead: set<Name>, s: Name, c: Name)
    requires NetOk(n, depth) && Closed(n, dead) && c in n.clients && c !in dead
    ensures Below(PruneNet(n, dead), depth, s, c) <==> Below(n, depth, s, c)
    decreases depth(c)
  {
    hide Outside, Prune, WorldOk, Unique;
    if c != n.me {
      assert ClientOk(n, depth, c);
      BelowPruned(n, depth, dead, s, n.clients[c].servptr);
    }
  }

  lemma {:induction false} BelowThrough(n: Net, depth: Depth, s: Name, t: Name, c: Name)
    requires NetOk(n, depth) && Below(n, depth, s, t) && Below(n, depth, t, c)
    ensures Below(n, depth, s, c)
    decreases depth(c)
  {
    if c != t { BelowThrough(n, depth, s, t, n.clients[c].servptr); }
  }

  lemma {:induction false} BelowDeeper(n: Net, depth: Depth, s: Name, c: Name)
    requires NetOk(n, depth) && Below(n, depth, s, c)
    ensures s in n.clients && (c != s ==> depth(s) < depth(c) && c != n.me)
    decreases depth(c)
  {
    if c != s { BelowDeeper(n, depth, s, n.clients[c].servptr); }
  }

  lemma BelowClosed(n: Net, depth: Depth, s: Name)
    requires NetOk(n, depth) && s in n.clients
    ensures s != n.me ==> Closed(n, AllBelow(n, depth, s))
    ensures Closed(n, {}) && s in AllBelow(n, depth, s)
  {
    hide Unique;
    if s != n.me && n.me in AllBelow(n, depth, s) { BelowDeeper(n, depth, s, n.me); }
    forall c | c in n.clients && c != n.me && n.clients[c].servptr in AllBelow(n, depth, s)
      ensures c in AllBelow(n, depth, s)
    {
      assert ClientOk(n, depth, c);
    }
  }

  /** What depends on `s` strictly can go without `s`. */
  lemma StrictClosed(n: Net, depth: Depth, s: Name)
    requires NetOk(n, depth) && s in n.clients
    ensures Closed(n, StrictlyBelow(n, depth, s))
  {
    hide Unique;
    forall c | c in n.clients && c != n.me && n.clients[c].servptr in StrictlyBelow(n, depth, s)
      ensures c in StrictlyBelow(n, depth, s)
    {
      assert ClientOk(n, depth, c);
      BelowDeeper(n, depth, s, n.clients[c].servptr);
    }
    if n.me in StrictlyBelow(n, depth, s) { BelowDeeper(n, depth, s, n.me); }
  }

  /** Every client but this server is on a list of its own server. */
  lemma Parent(n: Net, depth: Depth, x: Name)
    requires NetOk(n, depth) && x in n.clients && x != n.me
    ensures var p := n.clients[x].servptr;
      && p in n.clients && n.clients[p].server && depth(p) < depth(x)
      && x in if n.clients[x].server then n.clients[p].servers else n.clients[p].users
  {
    hide Unique;
    assert ClientOk(n, depth, x);
  }

  /** Whoever is on a list of `c` has it as its server. */
  lemma Listed(n: Net, depth: Depth, c: Name, x: Name)
    requires NetOk(n, depth) && c in n.clients && (x in n.clients[c].servers || x in n.clients[c].users)
    ensures x in n.clients && x != n.me && n.clients[x].servptr == c && depth(c) < depth(x)
    ensures n.clients[x].server <==> x in n.clients[c].servers
  {
    hide Unique;
    assert ClientOk(n, depth, c);
    assert ClientOk(n, depth, x);
  }

  lemma LeafClosed(n: Net, depth: Depth, c: Name)
    requires NetOk(n, depth) && c in n.clients && c != n.me && n.clients[c].servers == [] && n.clients[c].users == []
    ensures Closed(n, {c})
  {
    hide Unique, ClientOk;
    forall x | x in n.clients && x != n.me ensures n.clients[x].servptr != c { Parent(n, depth, x); }
  }

  /** Nothing depends on a server whose lists are empty. */
  lemma {:induction false} EmptyBelow(n: Net, depth: Depth, s: Name, c: Name)
    requires NetOk(n, depth) && s in n.clients && n.clients[s].servers == [] && n.clients[s].users == []
    ensures Below(n, depth, s, c) ==> c == s
    decreases depth(c)
  {
    hide Unique;
    if Below(n, depth, s, c) && c != s {
      assert ClientOk(n, depth, c);
      EmptyBelow(n, depth, s, n.clients[c].servptr);
    }
  }

  // ----- one step of the removal -----

  /** A list that has only `c` to lose. */
  lemma UnlinkOne(n: Net, depth: Depth, c: Name, x: Name)
    requires NetOk(n, depth) && c in n.clients && c != n.me && x in n.clients && x != n.clients[c].servptr
    ensures PruneClient(n.clients[x], {c}) == n.clients[x]
  {
    hide Unique, Outside;
    assert ClientOk(n, depth, x) && ClientOk(n, depth, c);
    OutsideNone(n.clients[x].servers, {c});
    OutsideNone(n.clients[x].users, {c});
  }

  lemma UnlinkParent(n: Net, depth: Depth, c: Name)
    requires NetOk(n, depth) && c in n.clients && c != n.me
    ensures var p, x := n.clients[c].servptr, n.clients[c];
      && p in n.clients && p != c && Unique(n.global)
      && var y := n.clients[p];
         PruneClient(y, {c}) == if x.server then y.(servers := Unlinked(y.servers, c))
                                else y.(users := Unlinked(y.users, c), usercnt := y.usercnt - 1)
  {
    hide Unique, Outside, Unlinked;
    assert ClientOk(n, depth, c);
    var p := n.clients[c].servptr;
    assert ClientOk(n, depth, p);
    UnlinkedIs(n.clients[p].servers, c);
    UnlinkedIs(n.clients[p].users, c);
    if n.clients[c].server { OutsideNone(n.clients[p].users, {c}); } else { OutsideNone(n.clients[p].servers, {c}); }
  }

  /** Removing a server from the records leaves the channels alone. */
  lemma ServerNotInWorld(n: Net, depth: Depth, c: Name)
    requires NetOk(n, depth) && c in n.clients && n.clients[c].server
    ensures Prune(n.world, {c}) == n.world
  {
    var w := n.world;
    hide Unique, Outside, NetOk, Prune, WorldOk, UserOk, ChannelOk;
    assert c !in w.users && WorldOk(w) by { NetWorld(n, depth, c); }
    PruneAbsent(w, c);
  }

  lemma NetWorld(n: Net, depth: Depth, c: Name)
    requires NetOk(n, depth) && c in n.clients
    ensures WorldOk(n.world) && (c in n.world.users <==> !n.clients[c].server)
  {
  }

  lemma PruneAbsent(w: World, c: Name)
    requires WorldOk(w) && c !in w.users
    ensures Prune(w, {c}) == w
  {
    hide Unique, Outside, Prune, CutUser, PruneChannel, Nicks, Emptied, WorldOk;
    PruneIs(w, {c});
    forall ch | ch in w.chans ensures !Emptied(w.chans[ch], {c}) && PruneChannel(w.chans[ch], {c}) == w.chans[ch] {
      AbsentChannel(w, c, ch);
    }
    forall u | u in w.users ensures CutUser(w, u, {c}, w.chans.Keys) == w.users[u] { AbsentUser(w, c, u); }
    SameWorld(Prune(w, {c}), w);
  }

  lemma AbsentChannel(w: World, c: Name, ch: string)
    requires WorldOk(w) && c !in w.users && ch in w.chans
    ensures !Emptied(w.chans[ch], {c}) && PruneChannel(w.chans[ch], {c}) == w.chans[ch]
  {
    hide Unique, Outside, Nicks, OutsideM;
    assert ChannelOk(w, ch, w.chans[ch]);
    OutsideMNone(w.chans[ch].members, {c});
    OutsideNone(w.chans[ch].invites, {c});
  }

  lemma AbsentUser(w: World, c: Name, u: Name)
    requires WorldOk(w) && c !in w.users && u in w.users
    requires forall ch <- w.chans :: !Emptied(w.chans[ch], {c})
    ensures CutUser(w, u, {c}, w.chans.Keys) == w.users[u]
  {
    hide Unique, Outside, Nicks, Emptied;
    assert UserOk(w, u, w.users[u]);
    OutsideNone(w.users[u].invited, EmptiedOf(w, {c}, w.chans.Keys));
  }

  /** A list head after client `c`, which was `x`, is unlinked from it. */
  function Detached(y: Client, x: Client, c: Name): Client {
    if x.server then y.(servers := Unlinked(y.servers, c))
    else y.(users := Unlinked(y.users, c), usercnt := y.usercnt - 1)
  }

  /** What leaving the lists one by one comes to. */
  lemma ExitIs(n: Net, depth: Depth, c: Name)
    requires NetOk(n, depth) && c in n.clients && c != n.me
    ensures var p, x := n.clients[c].servptr, n.clients[c];
      && p in n.clients && p != c && WorldOk(n.world) && (c in n.world.users <==> !x.server)
      && PruneNet(n, {c}) == Net(n.me, n.clients[p := Detached(n.clients[p], x, c)] - {c}, Unlinked(n.global, c),
                                 if x.server then n.world else Prune(n.world, {c}))
  {
    hide Unique, Outside, Unlinked, Prune, NetOk, ClientOk, WorldOk, PruneClient;
    UnlinkParent(n, depth, c);
    NetWorld(n, depth, c);
    var p := n.clients[c].servptr;
    forall x | x in n.clients && x != p ensures PruneClient(n.clients[x], {c}) == n.clients[x] {
      UnlinkOne(n, depth, c, x);
    }
    UnlinkedIs(n.global, c);
    if n.clients[c].server { ServerNotInWorld(n, depth, c); }
    assert PruneNet(n, {c}).clients == n.clients[p := Detached(n.clients[p], n.clients[c], c)] - {c};
  }

  // ----- the server that removes -----

  class ClientTable {
    const me: Name
    const registry: Registry
    ghost var depth: Depth
    var clients: map<Name, Client>
    var global: seq<Name>

    ghost function N(): Net
      reads this, registry
    {
      Net(me, clients, global, registry.W())
    }

    ghost predicate Valid()
      reads this, registry
    {
      NetOk(N(), depth)
    }

    constructor (me: Name)
      ensures Valid() && fresh(registry) && this.me == me
      ensures clients == map[me := Client(true, me, [], [], 0)]
    {
      this.me, depth := me, x => 0;
      registry := new Registry();
      clients := map[me := Client(true, me, [], [], 0)];
      global := [me];
    }

    /** A client is introduced: add_client_to_list and add_client_to_llist. It may have been known
        before, in another place. */
    method Introduce(c: Name, server: bool, on: Name)
      requires Valid() && c !in clients && on in clients && clients[on].server
      modifies this, registry
      ensures Valid() && global == [c] + old(global) && registry.chans == old(registry.chans)
      ensures clients == Introduced(old(N()), c, server, on, old(registry.W())).clients
      ensures clients.Keys == old(clients).Keys + {c} && clients[c] == Client(server, on, [], [], 0)
      ensures var p := old(clients)[on];
        clients[on] == if server then p.(servers := [c] + p.servers)
                       else p.(users := [c] + p.users, usercnt := p.usercnt + 1)
      ensures forall x <- old(clients) :: x != on ==> clients[x] == old(clients)[x]
    {
      hide Unique, ClientOk, WorldOk, NetOk, Hosting;
      ghost var d := Deepened(depth, c, depth(on) + 1);
      SameDepths(N(), depth, d);
      IntroduceOk(N(), d, c, server, on);
      depth := d;
      clients := clients[on := Hosting(clients[on], c, server)][c := Client(server, on, [], [], 0)];
      global := [c] + global;
      if !server { registry.Register(c); }
      HostingIs(old(clients)[on], c, server);
    }

    /** Unlinking from a list of names. */
    static method Unlink(s: seq<Name>, x: Name) returns (r: seq<Name>)
      ensures r == Unlinked(s, x)
    {
      r := Registry.Unlink(s, x);
    }

    /** exit_one_client, for a client on which nothing depends any more. */
    method ExitOne(c: Name)
      requires Valid() && c in clients && c != me && clients[c].servers == [] && clients[c].users == []
      modifies `clients, `global, registry
      ensures Valid() && N() == PruneNet(old(N()), {c})
    {
      hide Unique, Outside, Unlinked, Prune, NetOk, ClientOk, WorldOk, Closed;
      ghost var n := N();
      LeafClosed(n, depth, c);
      PruneNetOk(n, depth, {c});
      ExitIs(n, depth, c);
      hide PruneNet;
      var p := clients[c].servptr;
      if clients[c].server {
        var s := Unlink(clients[p].servers, c);
        clients := clients[p := clients[p].(servers := s)];
      } else {
        var u := Unlink(clients[p].users, c);
        clients := clients[p := clients[p].(users := u, usercnt := clients[p].usercnt - 1)];
        registry.ExitUser(c);
      }
      clients := clients - {c};
      global := Unlink(global, c);
    }

    /** recurse_remove_clients: everything that depends on `s` goes, `s` stays. */
    method RecurseRemove(s: Name)
      requires Valid() && s in clients && clients[s].server
      modifies `clients, `global, registry
      ensures Valid()
      ensures if s == me then N() == old(N()) else N() == PruneNet(old(N()), StrictlyBelow(old(N()), depth, s))
      decreases Deeper(N(), depth, s)
    {
      hide Unique, Outside, Prune, NetOk, ClientOk, WorldOk, Closed, PruneNet, Below, AllBelow;
      if s == me { return; }
      ghost var n := N();
      ghost var gone: set<Name> := {};
      PruneNothing(n, depth);
      while |clients[s].servers| > 0
        invariant Progress(n, N(), depth, s, gone)
        decreases |clients[s].servers|
      {
        var c := clients[s].servers[0];
        ghost var n1 := N();
        FirstServer(n, n1, depth, s, gone);
        RecurseRemove(c);
        ServerEmptied(n1, depth, c);
        ExitOne(c);
        gone := ServerGone(n, n1, N(), depth, s, c, gone);
      }
      while |clients[s].users| > 0
        invariant Progress(n, N(), depth, s, gone) && clients[s].servers == []
        decreases |clients[s].users|
      {
        var u := clients[s].users[0];
        ghost var n1 := N();
        FirstUser(n, n1, depth, s, gone);
        ExitOne(u);
        gone := UserGone(n, n1, N(), depth, s, u, gone);
      }
      AllGone(n, N(), depth, s, gone);
    }

    /** exit_client for a server: its dependents, then itself. */
    method ExitServer(s: Name)
      requires Valid() && s in clients && clients[s].server && s != me
      modifies `clients, `global, registry
      ensures Valid() && N() == PruneNet(old(N()), AllBelow(old(N()), depth, s))
      ensures NetWithout(old(N()), AllBelow(old(N()), depth, s), N())
    {
      hide Unique, Outside, Prune, NetOk, ClientOk, WorldOk, Closed, PruneNet, Below, AllBelow, NetWithout;
      ghost var n := N();
      PruneNetSays(n, depth, AllBelow(n, depth, s));
      RecurseRemove(s);
      ServerEmptied(n, depth, s);
      ExitOne(s);
      WholeGone(n, depth, s);
    }
  }

  /** A server that was behind another comes back with the other behind it. */
  method Rejoins() returns (t: ClientTable)
    ensures t.Valid() && "a" in t.clients && "b" in t.clients && t.clients["b"].servptr == "me"
        && t.clients["a"].servptr == "b"
  {
    hide NetOk, PruneClient;
    t := new ClientTable("me");
    t.Introduce("a", true, "me");
    t.Introduce("b", true, "a");
    OneBehind(t.N(), t.depth, "a", "b");
    t.ExitServer("a");
    t.Introduce("b", true, "me");
    t.Introduce("a", true, "b");
  }

  lemma OneBehind(n: Net, depth: Depth, s: Name, c: Name)
    requires NetOk(n, depth) && s in n.clients && c in n.clients && c != n.me && n.clients[c].servptr == s && s != n.me
    ensures Below(n, depth, s, c) && Below(n, depth, s, s) && !Below(n, depth, s, n.me)
    ensures n.me in PruneNet(n, AllBelow(n, depth, s)).clients
        && PruneNet(n, AllBelow(n, depth, s)).clients[n.me].server
  {
    hide NetOk;
    Parent(n, depth, c);
    assert Below(n, depth, s, s);
    if Below(n, depth, s, n.me) { BelowDeeper(n, depth, s, n.me); }
    Me(n, depth);
    PruneClientIs(n.clients[n.me], AllBelow(n, depth, s));
  }

  // ----- helpers for the removal -----

  ghost function Deepened(depth: Depth, c: Name, k: nat): Depth { x => if x == c then k else depth(x) }

  /** Only the depths of clients that are there matter. */
  lemma SameDepths(n: Net, d: Depth, d': Depth)
    requires NetOk(n, d) && forall x <- n.clients :: d(x) == d'(x)
    ensures NetOk(n, d')
  {
    hide Unique, WorldOk;
    forall c | c in n.clients ensures ClientOk(n, d', c) { assert ClientOk(n, d, c); }
  }

  ghost function Deeper(n: Net, depth: Depth, s: Name): set<Name> { set c | c in n.clients && depth(c) > depth(s) }

  /** The network with one more client `c` on `on`; `w` is what becomes of the channels' users. */
  function Introduced(n: Net, c: Name, server: bool, on: Name, w: World): Net
    requires on in n.clients
  {
    Net(n.me, n.clients[on := Hosting(n.clients[on], c, server)][c := Client(server, on, [], [], 0)], [c] + n.global, w)
  }

  function Hosting(p: Client, c: Name, server: bool): Client {
    if server then p.(servers := [c] + p.servers) else p.(users := [c] + p.users, usercnt := p.usercnt + 1)
  }

  lemma HostingIs(p: Client, c: Name, server: bool)
    ensures Hosting(p, c, server)
         == if server then p.(servers := [c] + p.servers) else p.(users := [c] + p.users, usercnt := p.usercnt + 1)
  {
  }

  lemma IntroduceOk(n: Net, depth: Depth, c: Name, server: bool, on: Name)
    requires NetOk(n, depth) && c !in n.clients && on in n.clients && n.clients[on].server && depth(on) < depth(c)
    ensures WorldOk(n.world) && c !in n.world.users
    ensures var w := if server then n.world else n.world.(users := n.world.users[c := User([], 0, [])]);
      NetOk(Introduced(n, c, server, on, w), depth)
  {
    hide Unique, ClientOk, WorldOk, Hosting;
    var w := if server then n.world else n.world.(users := n.world.users[c := User([], 0, [])]);
    var n' := Introduced(n, c, server, on, w);
    UniqueCons(c, n.global);
    if !server { RegisterOk(n.world, c); }
    KeepsKind(n.clients[on], c, server);
    forall x | x in n'.clients ensures ClientOk(n', depth, x) {
      if x == c { NewOk(n, depth, c, server, on, w); }
      else if x == on { HostOk(n, depth, c, server, on, w); }
      else { OthersOk(n, depth, c, server, on, w, x); }
    }
  }

  lemma KeepsKind(p: Client, c: Name, server: bool)
    ensures Hosting(p, c, server).server == p.server && Hosting(p, c, server).servptr == p.servptr
    ensures forall x :: x in Hosting(p, c, server).servers <==> x in p.servers || (server && x == c)
    ensures forall x :: x in Hosting(p, c, server).users <==> x in p.users || (!server && x == c)
    ensures c !in p.servers && c !in p.users && Unique(p.servers) && Unique(p.users) ==>
      Unique(Hosting(p, c, server).servers) && Unique(Hosting(p, c, server).users)
  {
    hide Unique;
    if c !in p.servers && Unique(p.servers) { UniqueCons(c, p.servers); }
    if c !in p.users && Unique(p.users) { UniqueCons(c, p.users); }
  }

  lemma NewOk(n: Net, depth: Depth, c: Name, server: bool, on: Name, w: World)
    requires NetOk(n, depth) && c !in n.clients && on in n.clients && n.clients[on].server && depth(on) < depth(c)
    ensures ClientOk(Introduced(n, c, server, on, w), depth, c)
  {
    hide Unique, WorldOk, NetOk, Hosting;
    assert c != n.me by { Me(n, depth); }
    KeepsKind(n.clients[on], c, server);
    EmptyUnique();
  }

  lemma Me(n: Net, depth: Depth)
    requires NetOk(n, depth)
    ensures n.me in n.clients && n.clients[n.me].server
  {
  }

  lemma HostOk(n: Net, depth: Depth, c: Name, server: bool, on: Name, w: World)
    requires NetOk(n, depth) && c !in n.clients && on in n.clients && n.clients[on].server && depth(on) < depth(c)
    ensures ClientOk(Introduced(n, c, server, on, w), depth, on)
  {
    hide Unique, WorldOk, NetOk, Hosting;
    Me(n, depth);
    Local(n, depth, on);
    KeepsKind(n.clients[on], c, server);
    var p := n.clients[on];
    if c in p.servers || c in p.users { Listed(n, depth, on, c); }
    assert Hosting(p, c, server).usercnt == |Hosting(p, c, server).users| by { HostCount(p, c, server); }
  }

  lemma HostCount(p: Client, c: Name, server: bool)
    requires p.usercnt == |p.users|
    ensures Hosting(p, c, server).usercnt == |Hosting(p, c, server).users|
  {
  }

  lemma Local(n: Net, depth: Depth, x: Name)
    requires NetOk(n, depth) && x in n.clients
    ensures ClientOk(n, depth, x)
  {
  }

  lemma OthersOk(n: Net, depth: Depth, c: Name, server: bool, on: Name, w: World, x: Name)
    requires NetOk(n, depth) && c !in n.clients && on in n.clients && n.clients[on].server && depth(on) < depth(c)
    requires x in n.clients && x != c && x != on
    ensures ClientOk(Introduced(n, c, server, on, w), depth, x)
  {
    hide Unique, WorldOk, NetOk, Hosting;
    Local(n, depth, x);
    KeepsKind(n.clients[on], c, server);
  }

  /** Between two steps of the removal: `gone` are removed, all of them from below `s`. */
  ghost predicate Progress(n: Net, m: Net, depth: Depth, s: Name, gone: set<Name>) {
    && NetOk(n, depth) && NetOk(m, depth) && m == PruneNet(n, gone) && Closed(n, gone)
    && gone <= StrictlyBelow(n, depth, s) && s in m.clients && s in n.clients && s != n.me && m.clients[s].server
  }

  lemma PruneNothing(n: Net, depth: Depth)
    requires NetOk(n, depth)
    ensures PruneNet(n, {}) == n && Closed(n, {})
  {
    hide Unique, Outside, Prune, WorldOk, ClientOk;
    var r := PruneNet(n, {});
    OutsideNone(n.global, {});
    forall c | c in n.clients ensures r.clients[c] == n.clients[c] { PruneNoClient(n, depth, c); }
    assert r.clients == n.clients;
    PruneNobody(n.world);
  }

  lemma PruneNoClient(n: Net, depth: Depth, c: Name)
    requires NetOk(n, depth) && c in n.clients
    ensures PruneClient(n.clients[c], {}) == n.clients[c]
  {
    hide Unique, Outside;
    assert ClientOk(n, depth, c);
    OutsideNone(n.clients[c].servers, {});
    OutsideNone(n.clients[c].users, {});
  }

  lemma PruneNobody(w: World)
    requires WorldOk(w)
    ensures Prune(w, {}) == w
  {
    hide Unique, Outside, Prune, CutUser, PruneChannel, Nicks, Emptied, WorldOk;
    PruneIs(w, {});
    forall ch | ch in w.chans ensures !Emptied(w.chans[ch], {}) && PruneChannel(w.chans[ch], {}) == w.chans[ch] {
      NobodyLeaves(w, ch);
    }
    forall u | u in w.users ensures CutUser(w, u, {}, w.chans.Keys) == w.users[u] { NobodyLeft(w, u); }
    SameWorld(Prune(w, {}), w);
  }

  lemma NobodyLeaves(w: World, ch: string)
    requires WorldOk(w) && ch in w.chans
    ensures !Emptied(w.chans[ch], {}) && PruneChannel(w.chans[ch], {}) == w.chans[ch]
  {
    hide Unique, Outside, Nicks, OutsideM;
    assert ChannelOk(w, ch, w.chans[ch]);
    OutsideMNone(w.chans[ch].members, {});
    OutsideNone(w.chans[ch].invites, {});
  }

  lemma NobodyLeft(w: World, u: Name)
    requires WorldOk(w) && u in w.users && forall ch <- w.chans :: !Emptied(w.chans[ch], {})
    ensures CutUser(w, u, {}, w.chans.Keys) == w.users[u]
  {
    hide Unique, Outside, Nicks, Emptied;
    assert UserOk(w, u, w.users[u]);
    OutsideNone(w.users[u].invited, EmptiedOf(w, {}, w.chans.Keys));
  }

  lemma FirstServer(n: Net, m: Net, depth: Depth, s: Name, gone: set<Name>)
    requires Progress(n, m, depth, s, gone) && m.clients[s].servers != []
    ensures var c := m.clients[s].servers[0];
      && c in m.clients && m.clients[c].server && c != m.me && m.clients[c].servptr == s && depth(s) < depth(c)
      && Deeper(m, depth, c) < Deeper(n, depth, s)
  {
    hide Unique, Outside, Prune, WorldOk, Closed, AllBelow;
    var c := m.clients[s].servers[0];
    assert ClientOk(m, depth, s) && c in m.clients[s].servers;
    assert ClientOk(m, depth, c);
    assert c in Deeper(n, depth, s) && c !in Deeper(m, depth, c);
  }

  lemma FirstUser(n: Net, m: Net, depth: Depth, s: Name, gone: set<Name>)
    requires Progress(n, m, depth, s, gone) && m.clients[s].users != []
    ensures var c := m.clients[s].users[0];
      && c in m.clients && !m.clients[c].server && c != m.me && m.clients[c].servptr == s && depth(s) < depth(c)
      && m.clients[c].servers == [] && m.clients[c].users == []
  {
    hide Unique, Outside, Prune, WorldOk, Closed, AllBelow;
    var c := m.clients[s].users[0];
    assert ClientOk(m, depth, s) && c in m.clients[s].users;
    assert ClientOk(m, depth, c);
  }

  lemma NotStrict(m: Net, depth: Depth, c: Name)
    ensures c !in StrictlyBelow(m, depth, c)
  {
  }

  lemma ChildBelow(m: Net, depth: Depth, c: Name, x: Name)
    requires NetOk(m, depth) && c in m.clients && (x in m.clients[c].servers || x in m.clients[c].users)
    ensures x in StrictlyBelow(m, depth, c)
  {
    hide ClientOk, Unique;
    Listed(m, depth, c, x);
    assert Below(m, depth, c, c);
  }

  /** After its dependents are removed a server's lists are empty. */
  lemma ServerEmptied(m: Net, depth: Depth, c: Name)
    requires NetOk(m, depth) && c in m.clients && c != m.me
    ensures var r := PruneNet(m, StrictlyBelow(m, depth, c));
      && NetOk(r, depth) && c in r.clients && r.clients[c].servers == [] && r.clients[c].users == []
      && r.clients[c].server == m.clients[c].server
  {
    hide Unique, Outside, Prune, WorldOk, Closed, NetOk, ClientOk, StrictlyBelow;
    var dead := StrictlyBelow(m, depth, c);
    StrictClosed(m, depth, c);
    PruneNetOk(m, depth, dead);
    assert c !in dead by { NotStrict(m, depth, c); }
    forall x | x in m.clients[c].servers || x in m.clients[c].users ensures x in dead {
      ChildBelow(m, depth, c, x);
    }
    OutsideAll(m.clients[c].servers, dead);
    OutsideAll(m.clients[c].users, dead);
  }

  /** Everything on `c`, and then `c`. */
  lemma WholeGone(m: Net, depth: Depth, c: Name)
    requires NetOk(m, depth) && c in m.clients
    ensures PruneNet(PruneNet(m, StrictlyBelow(m, depth, c)), {c}) == PruneNet(m, AllBelow(m, depth, c))
  {
    hide PruneNet, ClientOk;
    PruneNetTwice(m, StrictlyBelow(m, depth, c), {c});
    assert Below(m, depth, c, c);
    assert StrictlyBelow(m, depth, c) + {c} == AllBelow(m, depth, c);
  }

  /** One more subtree removed. */
  lemma ServerGone(n: Net, m: Net, m': Net, depth: Depth, s: Name, c: Name, gone: set<Name>) returns (gone': set<Name>)
    requires Progress(n, m, depth, s, gone) && c in m.clients && c != m.me && m.clients[c].servptr == s
    requires depth(s) < depth(c) && NetOk(m', depth)
    requires m' == PruneNet(PruneNet(m, StrictlyBelow(m, depth, c)), {c})
    ensures Progress(n, m', depth, s, gone')
    ensures |m'.clients[s].servers| <= |m.clients[s].servers|
    ensures c in m.clients[s].servers ==> |m'.clients[s].servers| < |m.clients[s].servers|
  {
    hide Unique, Outside, Prune, WorldOk, ClientOk, AllBelow;
    WholeGone(m, depth, c);
    gone' := MoreGone(n, m, depth, s, c, gone);
    SubtreeLists(m, depth, s, c);
  }

  lemma UserGone(n: Net, m: Net, m': Net, depth: Depth, s: Name, c: Name, gone: set<Name>) returns (gone': set<Name>)
    requires Progress(n, m, depth, s, gone) && c in m.clients && c != m.me && m.clients[c].servptr == s
    requires depth(s) < depth(c) && NetOk(m', depth) && m.clients[c].servers == [] && m.clients[c].users == []
    requires m' == PruneNet(m, {c}) && m.clients[s].servers == []
    ensures Progress(n, m', depth, s, gone') && m'.clients[s].servers == []
    ensures c in m.clients[s].users ==> |m'.clients[s].users| < |m.clients[s].users|
  {
    hide Unique, Outside, Prune, WorldOk, ClientOk, AllBelow, PruneNet;
    OnlyItself(m, depth, c);
    gone' := MoreGone(n, m, depth, s, c, gone);
    SubtreeLists(m, depth, s, c);
  }

  lemma OnlyItself(m: Net, depth: Depth, c: Name)
    requires NetOk(m, depth) && c in m.clients && m.clients[c].servers == [] && m.clients[c].users == []
    ensures AllBelow(m, depth, c) == {c}
  {
    hide NetOk;
    assert Below(m, depth, c, c);
    forall x | x in AllBelow(m, depth, c) ensures x == c { EmptyBelow(m, depth, c, x); }
  }

  lemma MoreGone(n: Net, m: Net, depth: Depth, s: Name, c: Name, gone: set<Name>) returns (gone': set<Name>)
    requires Progress(n, m, depth, s, gone) && c in m.clients && c != m.me && m.clients[c].servptr == s
        && depth(s) < depth(c)
    requires NetOk(PruneNet(m, AllBelow(m, depth, c)), depth)
    ensures Progress(n, PruneNet(m, AllBelow(m, depth, c)), depth, s, gone')
  {
    hide Unique, Outside, Prune, WorldOk, ClientOk, NetOk, PruneNet, Closed, AllBelow, StrictlyBelow, Below;
    var dead := AllBelow(m, depth, c);
    gone' := gone + dead;
    assert WorldOk(n.world) by { NetWorld(n, depth, s); }
    PruneNetTwice(n, gone, dead);
    BelowClosed(m, depth, c);
    ClosedTwice(n, gone, dead);
    forall x | x in dead ensures x in StrictlyBelow(n, depth, s) { SubtreeBelow(n, m, depth, s, c, gone, x); }
    assert s !in dead by { if s in dead { InBelow(m, depth, c, s); BelowDeeper(m, depth, c, s); } }
    StaysPruned(m, dead, s);
  }

  lemma InBelow(m: Net, depth: Depth, c: Name, x: Name)
    ensures x in AllBelow(m, depth, c) <==> Below(m, depth, c, x)
  {
  }

  lemma StaysPruned(m: Net, dead: set<Name>, s: Name)
    requires s in m.clients && s !in dead
    ensures s in PruneNet(m, dead).clients && PruneNet(m, dead).clients[s].server == m.clients[s].server
  {
  }

  lemma ClosedTwice(n: Net, a: set<Name>, b: set<Name>)
    requires Closed(n, a) && Closed(PruneNet(n, a), b)
    ensures Closed(n, a + b)
  {
    hide Outside, Prune;
    var r := PruneNet(n, a);
    forall c | c in n.clients && c != n.me && n.clients[c].servptr in a + b ensures c in a + b {
      if c !in a {
        assert c in r.clients && r.clients[c].servptr == n.clients[c].servptr;
      }
    }
  }

  /** What is below a child of `s` after some removals was below `s` from the start. */
  lemma SubtreeBelow(n: Net, m: Net, depth: Depth, s: Name, c: Name, gone: set<Name>, x: Name)
    requires NetOk(n, depth) && Closed(n, gone) && m == PruneNet(n, gone) && s in n.clients
    requires c in m.clients && c != m.me && m.clients[c].servptr == s && depth(s) < depth(c)
        && x in AllBelow(m, depth, c)
    ensures x in StrictlyBelow(n, depth, s)
  {
    hide Unique, Outside, Prune, WorldOk, ClientOk, NetOk, Closed;
    BelowPruned(n, depth, gone, c, x);
    assert Below(n, depth, s, s);
    BelowThrough(n, depth, s, c, x);
    BelowDeeper(n, depth, c, x);
  }

  lemma SubtreeLists(m: Net, depth: Depth, s: Name, c: Name)
    requires NetOk(m, depth) && s in m.clients && c in m.clients && c != m.me && depth(s) < depth(c)
    ensures var r := PruneNet(m, AllBelow(m, depth, c));
      && s in r.clients
      && (c in m.clients[s].servers ==> |r.clients[s].servers| < |m.clients[s].servers|)
      && (c in m.clients[s].users ==> |r.clients[s].users| < |m.clients[s].users|)
      && |r.clients[s].servers| <= |m.clients[s].servers|
  {
    hide Unique, Outside, Prune, WorldOk, ClientOk;
    var dead := AllBelow(m, depth, c);
    if s in dead { BelowDeeper(m, depth, c, s); }
    assert c in dead;
    if c in m.clients[s].servers { OutsideShorter(m.clients[s].servers, dead, c); }
    if c in m.clients[s].users { OutsideShorter(m.clients[s].users, dead, c); }
  }

  lemma {:induction false} OutsideShorter(l: seq<Name>, dead: set<Name>, c: Name)
    requires c in l && c in dead
    ensures |Outside(l, dead)| < |l|
  {
    if l[0] !in dead {
      assert l == [l[0]] + l[1..];
      OutsideShorter(l[1..], dead, c);
    }
  }

  lemma AllGone(n: Net, m: Net, depth: Depth, s: Name, gone: set<Name>)
    requires Progress(n, m, depth, s, gone) && m.clients[s].servers == [] && m.clients[s].users == []
    ensures gone == StrictlyBelow(n, depth, s)
  {
    hide Unique, Outside, Prune, WorldOk, ClientOk, Closed;
    forall x | x in StrictlyBelow(n, depth, s) ensures x in gone {
      if x !in gone {
        BelowPruned(n, depth, gone, s, x);
        EmptyBelow(m, depth, s, x);
      }
    }
  }
}
