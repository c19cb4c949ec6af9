/** How neighbours are told of a netsplit (src/client.c, recurse_send_quits and remove_dependents):
    one SQUIT for a neighbour that works out the rest, else a QUIT or SQUIT for every client. */
module SplitLines {
  import opened Chains
  import opened Memberships
  import opened Netsplit

  datatype Line = Quit(who: Name) | Squit(who: Name)

  function Quits(us: seq<Name>): (r: seq<Line>)
    ensures |r| == |us|
  {
    seq(|us|, i requires 0 <= i < |us| => Quit(us[i]))
  }

  lemma DeeperShrinks(n: Net, depth: Depth, s: Name, c: Name)
    requires NetOk(n, depth) && s in n.clients && c in n.clients[s].servers
    ensures c in n.clients && c != n.me && n.clients[c].server && n.clients[c].servptr == s
    ensures Deeper(n, depth, c) < Deeper(n, depth, s)
  {
    hide NetOk;
    Listed(n, depth, s, c);
    assert c in Deeper(n, depth, s) && c !in Deeper(n, depth, c);
  }

  /** The full series for `s`: its users, all that depends on its servers, then itself. */
  ghost function Series(n: Net, depth: Depth, s: Name): seq<Line>
    requires NetOk(n, depth) && s in n.clients
    decreases Deeper(n, depth, s), 1, 0
  {
    Quits(n.clients[s].users) + SeriesAll(n, depth, s, n.clients[s].servers) + [Squit(s)]
  }

  ghost function SeriesAll(n: Net, depth: Depth, s: Name, l: seq<Name>): seq<Line>
    requires NetOk(n, depth) && s in n.clients && forall c <- l :: c in n.clients[s].servers
    decreases Deeper(n, depth, s), 0, |l|
  {
    if l == [] then []
    else
      DeeperShrinks(n, depth, s, l[|l| - 1]);
      SeriesAll(n, depth, s, l[..|l| - 1]) + Series(n, depth, l[|l| - 1])
  }

  /** The QUITs for the users of one server. */
  method UserQuits(us: seq<Name>) returns (out: seq<Line>)
    ensures out == Quits(us)
  {
    out := [];
    for i := 0 to |us|
      invariant out == Quits(us[..i])
    {
      out := out + [Quit(us[i])];
      assert Quits(us[..i + 1]) == Quits(us[..i]) + [Quit(us[i])];
    }
    assert us[..|us|] == us;
  }

  lemma OneMore(n: Net, depth: Depth, s: Name, i: nat)
    requires NetOk(n, depth) && s in n.clients && i < |n.clients[s].servers|
    ensures var ss := n.clients[s].servers;
      && ss[i] in n.clients && n.clients[ss[i]].server && Deeper(n, depth, ss[i]) < Deeper(n, depth, s)
      && SeriesAll(n, depth, s, ss[..i + 1]) == SeriesAll(n, depth, s, ss[..i]) + Series(n, depth, ss[i])
  {
    hide NetOk, Deeper, Series;
    var ss := n.clients[s].servers;
    DeeperShrinks(n, depth, s, ss[i]);
    assert ss[..i + 1][..i] == ss[..i] && ss[..i + 1][i] == ss[i];
  }

  lemma SeriesIs(n: Net, depth: Depth, s: Name)
    requires NetOk(n, depth) && s in n.clients
    ensures var ss := n.clients[s].servers;
      Series(n, depth, s) == Quits(n.clients[s].users) + SeriesAll(n, depth, s, ss[..|ss|]) + [Squit(s)]
  {
    hide NetOk, SeriesAll;
    assert n.clients[s].servers[..|n.clients[s].servers|] == n.clients[s].servers;
  }

  lemma NoneYet(n: Net, depth: Depth, s: Name)
    requires NetOk(n, depth) && s in n.clients
    ensures SeriesAll(n, depth, s, n.clients[s].servers[..0]) == []
  {
    hide NetOk;
  }

  lemma Regrouped(a: seq<Line>, b: seq<Line>, c: seq<Line>)
    ensures (a + b) + c == a + (b + c)
  {
  }

  /** recurse_send_quits, for names that are not masked. */
  method SendQuits(t: ClientTable, s: Name, qs: bool) returns (out: seq<Line>)
    requires t.Valid() && s in t.clients && t.clients[s].server
    ensures out == if qs then [Squit(s)] else Series(t.N(), t.depth, s)
    decreases Deeper(t.N(), t.depth, s)
  {
    hide NetOk, Deeper, Series, SeriesAll, Quits;
    if qs { return [Squit(s)]; }
    out := UserQuits(t.clients[s].users);
    var ss := t.clients[s].servers;
    ghost var users := out;
    NoneYet(t.N(), t.depth, s);
    for i := 0 to |ss|
      invariant out == users + SeriesAll(t.N(), t.depth, s, ss[..i])
    {
      OneMore(t.N(), t.depth, s, i);
      var more := SendQuits(t, ss[i], qs);
      Regrouped(users, SeriesAll(t.N(), t.depth, s, ss[..i]), more);
      out := out + more;
    }
    SeriesIs(t.N(), t.depth, s);
    out := out + [Squit(s)];
  }

  /** A neighbour: whether it takes QS, whether the server that goes is behind it, and whether it is
      the link that the SQUIT came from. */
  datatype Neighbour = Neighbour(qs: bool, behind: bool, origin: bool)

  /** What a neighbour is told. */
  ghost function Telling(n: Net, depth: Depth, s: Name, to: Neighbour): seq<Line>
    requires NetOk(n, depth) && s in n.clients
  {
    if to.behind || (to.origin && to.qs) then [] else if to.qs then [Squit(s)] else Series(n, depth, s)
  }

  /** remove_dependents, what is sent: each neighbour is told in its own way. */
  method TellAll(t: ClientTable, s: Name, ns: seq<Neighbour>) returns (outs: seq<seq<Line>>)
    requires t.Valid() && s in t.clients && t.clients[s].server
    ensures |outs| == |ns|
    ensures forall i | 0 <= i < |ns| :: outs[i] == Telling(t.N(), t.depth, s, ns[i])
  {
    hide NetOk, Series;
    outs := [];
    for i := 0 to |ns|
      invariant |outs| == i
      invariant forall j | 0 <= j < i :: outs[j] == Telling(t.N(), t.depth, s, ns[j])
    {
      var out: seq<Line> := [];
      if !ns[i].behind && !(ns[i].origin && ns[i].qs) { out := SendQuits(t, s, ns[i].qs); }
      outs := outs + [out];
    }
  }

  /** remove_dependents: the neighbours are told, then all that depends on `s` goes. */
  method RemoveDependents(t: ClientTable, s: Name, ns: seq<Neighbour>) returns (outs: seq<seq<Line>>)
    requires t.Valid() && s in t.clients && t.clients[s].server && s != t.me
    modifies t`clients, t`global, t.registry
    ensures t.Valid() && t.N() == PruneNet(old(t.N()), StrictlyBelow(old(t.N()), t.depth, s))
    ensures |outs| == |ns|
    ensures forall i | 0 <= i < |ns| :: outs[i] == Telling(old(t.N()), t.depth, s, ns[i])
    ensures forall i | 0 <= i < |ns| :: ToldRight(old(t.N()), t.depth, s, ns[i], outs[i])
  {
    hide NetOk, PruneNet, StrictlyBelow, Telling, ToldRight;
    outs := TellAll(t, s, ns);
    forall i | 0 <= i < |ns| ensures ToldRight(t.N(), t.depth, s, ns[i], outs[i]) {
      TellingIs(t.N(), t.depth, s, ns[i]);
    }
    t.RecurseRemove(s);
  }

  // ----- the series names each client of the subtree once -----

  function LineFor(n: Net, c: Name): Line
    requires c in n.clients
  {
    if n.clients[c].server then Squit(c) else Quit(c)
  }

  lemma {:induction false} FirstStep(n: Net, depth: Depth, s: Name, x: Name) returns (c: Name)
    requires NetOk(n, depth) && Below(n, depth, s, x) && x != s
    ensures s in n.clients && (c in n.clients[s].servers || c in n.clients[s].users) && Below(n, depth, c, x)
    ensures c != x ==> c in n.clients[s].servers
    decreases depth(x)
  {
    hide NetOk;
    Parent(n, depth, x);
    if n.clients[x].servptr == s {
      c := x;
    } else {
      c := FirstStep(n, depth, s, n.clients[x].servptr);
      BelowServer(n, depth, s, c, n.clients[x].servptr);
    }
  }

  /** Only a server has others below it. */
  lemma {:induction false} BelowServer(n: Net, depth: Depth, s: Name, c: Name, x: Name)
    requires NetOk(n, depth) && s in n.clients && (c in n.clients[s].servers || c in n.clients[s].users)
    requires Below(n, depth, c, x) && n.clients[x].server
    ensures c in n.clients[s].servers
    decreases depth(x)
  {
    hide NetOk;
    Listed(n, depth, s, c);
    if c != x {
      Parent(n, depth, x);
      BelowServer(n, depth, s, c, n.clients[x].servptr);
    }
  }

  lemma {:induction false} UserLeaf(n: Net, depth: Depth, u: Name, x: Name)
    requires NetOk(n, depth) && u in n.clients && !n.clients[u].server && Below(n, depth, u, x)
    ensures x == u
    decreases depth(x)
  {
    hide NetOk;
    if x != u {
      Parent(n, depth, x);
      UserLeaf(n, depth, u, n.clients[x].servptr);
    }
  }

  /** Exactly the clients of the subtree are named, users by QUIT and servers by SQUIT. */
  lemma {:induction false} SeriesNames(n: Net, depth: Depth, s: Name, l: Line)
    requires NetOk(n, depth) && s in n.clients && n.clients[s].server
    ensures l in Series(n, depth, s) <==> l.who in n.clients && Below(n, depth, s, l.who) && l == LineFor(n, l.who)
    decreases Deeper(n, depth, s), 1, 0
  {
    hide NetOk, Deeper, Below;
    var us, ss := n.clients[s].users, n.clients[s].servers;
    SeriesAllNames(n, depth, s, ss, l);
    BelowItself(n, depth, s);
    if l in Quits(us) {
      var i :| 0 <= i < |us| && l == Quit(us[i]);
      Listed(n, depth, s, us[i]);
      OneBelow(n, depth, s, us[i]);
      NoUserListed(n, depth, s, us[i]);
    }
    if l in SeriesAll(n, depth, s, ss) {
      var c :| c in ss && c in n.clients && Below(n, depth, c, l.who);
      Listed(n, depth, s, c);
      OneBelow(n, depth, s, c);
      BelowThrough(n, depth, s, c, l.who);
    }
    if l.who in n.clients && Below(n, depth, s, l.who) && l == LineFor(n, l.who) && l.who != s {
      var c := FirstStep(n, depth, s, l.who);
      Listed(n, depth, s, c);
      if c in us && c !in ss {
        var i :| 0 <= i < |us| && us[i] == c;
        assert Quits(us)[i] == l;
      }
    }
  }

  lemma BelowItself(n: Net, depth: Depth, s: Name)
    requires s in n.clients
    ensures Below(n, depth, s, s)
  {
  }

  lemma OneBelow(n: Net, depth: Depth, s: Name, c: Name)
    requires s in n.clients && c in n.clients && c != n.me && n.clients[c].servptr == s && depth(s) < depth(c)
    ensures Below(n, depth, s, c)
  {
    assert Below(n, depth, s, s);
  }

  lemma NoUserListed(n: Net, depth: Depth, s: Name, u: Name)
    requires NetOk(n, depth) && s in n.clients && u in n.clients[s].users
    ensures u in n.clients && !n.clients[u].server
  {
    hide Unique;
    assert ClientOk(n, depth, s);
  }

  lemma {:induction false} SeriesAllNames(n: Net, depth: Depth, s: Name, cs: seq<Name>, l: Line)
    requires NetOk(n, depth) && s in n.clients && forall c <- cs :: c in n.clients[s].servers
    ensures l in SeriesAll(n, depth, s, cs) <==>
      exists c :: c in cs && c in n.clients && Below(n, depth, c, l.who) && l == LineFor(n, l.who)
    decreases Deeper(n, depth, s), 0, |cs|
  {
    hide NetOk, Deeper, Below, Series;
    if cs != [] {
      var c := cs[|cs| - 1];
      DeeperShrinks(n, depth, s, c);
      SeriesAllNames(n, depth, s, cs[..|cs| - 1], l);
      SeriesNames(n, depth, c, l);
      assert cs == cs[..|cs| - 1] + [c];
      BelowKnown(n, depth, c, l.who);
    }
  }

  lemma BelowKnown(n: Net, depth: Depth, s: Name, c: Name)
    ensures Below(n, depth, s, c) ==> c in n.clients
  {
  }

  /** Two different children of one server have nothing in common below them. */
  lemma {:induction false} Apart(n: Net, depth: Depth, s: Name, a: Name, b: Name, x: Name)
    requires NetOk(n, depth) && s in n.clients && a in n.clients && b in n.clients && a != n.me && b != n.me
    requires n.clients[a].servptr == s && n.clients[b].servptr == s && Below(n, depth, a, x) && Below(n, depth, b, x)
    ensures a == b
    decreases depth(x)
  {
    hide NetOk;
    if x == a || x == b {
      var y := if x == a then b else a;
      Parent(n, depth, a);
      Parent(n, depth, b);
      if x != y { BelowDeeper(n, depth, y, s); }
    } else {
      Apart(n, depth, s, a, b, n.clients[x].servptr);
    }
  }

  lemma UniqueJoin(a: seq<Line>, b: seq<Line>)
    requires Unique(a) && Unique(b) && forall l <- a :: l !in b
    ensures Unique(a + b)
  {
    var c := a + b;
    forall i, j | 0 <= i < j < |c| ensures c[i] != c[j] {
      if i < |a| <= j { assert c[i] in a && c[j] in b; }
    }
  }

  lemma {:induction false} SeriesOnce(n: Net, depth: Depth, s: Name)
    requires NetOk(n, depth) && s in n.clients && n.clients[s].server
    ensures Unique(Series(n, depth, s))
    decreases Deeper(n, depth, s), 1, 0
  {
    hide NetOk, Deeper, Below, SeriesAll, Unique;
    var us, ss := n.clients[s].users, n.clients[s].servers;
    var q, a := Quits(us), SeriesAll(n, depth, s, ss);
    SeriesAllOnce(n, depth, s, ss);
    QuitsOnce(n, depth, s);
    forall l | l in q ensures l !in a {
      var i :| 0 <= i < |us| && l == Quit(us[i]);
      if l in a {
        SeriesAllNames(n, depth, s, ss, l);
        var c :| c in ss && c in n.clients && Below(n, depth, c, l.who);
        QuitApart(n, depth, s, us[i], c);
      }
    }
    UniqueJoin(q, a);
    if Squit(s) in a {
      SeriesAllNames(n, depth, s, ss, Squit(s));
      var c :| c in ss && c in n.clients && Below(n, depth, c, s);
      Listed(n, depth, s, c);
      BelowDeeper(n, depth, c, s);
    }
    OneUnique(Squit(s));
    UniqueJoin(q + a, [Squit(s)]);
  }

  lemma OneUnique(l: Line)
    ensures Unique([l])
  {
  }

  lemma QuitApart(n: Net, depth: Depth, s: Name, u: Name, c: Name)
    requires NetOk(n, depth) && s in n.clients && u in n.clients[s].users && c in n.clients[s].servers
    ensures !Below(n, depth, c, u)
  {
    hide NetOk;
    Listed(n, depth, s, c);
    Listed(n, depth, s, u);
    NoUserListed(n, depth, s, u);
    if Below(n, depth, c, u) {
      assert Below(n, depth, u, u);
      Apart(n, depth, s, c, u, u);
    }
  }

  lemma QuitsOnce(n: Net, depth: Depth, s: Name)
    requires NetOk(n, depth) && s in n.clients
    ensures Unique(Quits(n.clients[s].users))
  {
    hide NetOk;
    Local(n, depth, s);
  }

  lemma {:induction false} SeriesAllOnce(n: Net, depth: Depth, s: Name, cs: seq<Name>)
    requires NetOk(n, depth) && s in n.clients && forall c <- cs :: c in n.clients[s].servers
    requires Prefix(cs, n.clients[s].servers)
    ensures Unique(SeriesAll(n, depth, s, cs))
    decreases Deeper(n, depth, s), 0, |cs|
  {
    hide NetOk, Deeper, Below, Series, Unique;
    if cs == [] {
      NoneUnique();
    } else {
      var c, rest := cs[|cs| - 1], cs[..|cs| - 1];
      DeeperShrinks(n, depth, s, c);
      assert Prefix(rest, n.clients[s].servers);
      SeriesAllOnce(n, depth, s, rest);
      SeriesOnce(n, depth, c);
      forall l | l in SeriesAll(n, depth, s, rest) ensures l !in Series(n, depth, c) {
        if l in Series(n, depth, c) {
          SeriesNames(n, depth, c, l);
          SeriesAllNames(n, depth, s, rest, l);
          var b :| b in rest && b in n.clients && Below(n, depth, b, l.who);
          Listed(n, depth, s, b);
          Apart(n, depth, s, b, c, l.who);
          LastNew(n, depth, s, cs);
        }
      }
      UniqueJoin(SeriesAll(n, depth, s, rest), Series(n, depth, c));
    }
  }

  predicate Prefix(a: seq<Name>, b: seq<Name>) { a <= b }

  lemma LastNew(n: Net, depth: Depth, s: Name, cs: seq<Name>)
    requires NetOk(n, depth) && s in n.clients && cs != [] && cs <= n.clients[s].servers
    ensures cs[|cs| - 1] !in cs[..|cs| - 1]
  {
    hide NetOk;
    Local(n, depth, s);
  }

  lemma NoneUnique()
    ensures Unique<Line>([])
  {
  }

  // ----- who goes first -----

  /** The client of `l` is on the server of `m`. */
  predicate On(n: Net, l: Line, m: Line) {
    l.who in n.clients && l.who != m.who && n.clients[l.who].servptr == m.who
  }

  /** Whoever is on a server is named before it. */
  predicate Ordered(n: Net, ls: seq<Line>) {
    forall i, j :: 0 <= i < |ls| && 0 <= j < |ls| && On(n, ls[i], ls[j]) ==> i < j
  }

  lemma OrderedJoin(n: Net, a: seq<Line>, b: seq<Line>)
    requires Ordered(n, a) && Ordered(n, b) && forall l <- b, m <- a :: !On(n, l, m)
    ensures Ordered(n, a + b)
  {
    hide On;
    var c := a + b;
    forall i, j | 0 <= i < |c| && 0 <= j < |c| && On(n, c[i], c[j]) ensures i < j {
      if i >= |a| && j < |a| {
        assert false;
      } else if i >= |a| {
        assert On(n, b[i - |a|], b[j - |a|]);
      } else if j < |a| {
        assert On(n, a[i], a[j]);
      }
    }
  }

  lemma OrderedEnds(n: Net, l: Line)
    ensures Ordered(n, []) && Ordered(n, [l])
  {
  }

  /** Nobody is on a user. */
  lemma QuitsOrdered(n: Net, depth: Depth, s: Name, l: Line, m: Line)
    requires NetOk(n, depth) && s in n.clients && m in Quits(n.clients[s].users)
    requires l.who in n.clients && l.who != n.me
    ensures !On(n, l, m)
  {
    hide NetOk;
    var i :| 0 <= i < |n.clients[s].users| && m == Quit(n.clients[s].users[i]);
    NoUserListed(n, depth, s, m.who);
    Parent(n, depth, l.who);
  }

  lemma {:induction false} SeriesOrdered(n: Net, depth: Depth, s: Name)
    requires NetOk(n, depth) && s in n.clients && n.clients[s].server && s != n.me
    ensures Ordered(n, Series(n, depth, s))
    decreases Deeper(n, depth, s), 1, 0
  {
    hide NetOk, Deeper, Below, SeriesAll, Ordered, On;
    var us, ss := n.clients[s].users, n.clients[s].servers;
    var q, a := Quits(us), SeriesAll(n, depth, s, ss);
    SeriesAllOrdered(n, depth, s, ss);
    forall i, j | 0 <= i < |q| && 0 <= j < |q| ensures !On(n, q[i], q[j]) {
      MemberBelow(n, depth, s, q[i]);
      QuitsOrdered(n, depth, s, q[i], q[j]);
    }
    NoneOn(n, q);
    forall l, m | l in a && m in q ensures !On(n, l, m) {
      MemberBelow(n, depth, s, l);
      QuitsOrdered(n, depth, s, l, m);
    }
    OrderedJoin(n, q, a);
    OrderedEnds(n, Squit(s));
    forall m | m in q + a ensures !On(n, Squit(s), m) { ServerLast(n, depth, s, m); }
    OrderedJoin(n, q + a, [Squit(s)]);
  }

  lemma NoneOn(n: Net, ls: seq<Line>)
    requires forall i, j :: 0 <= i < |ls| && 0 <= j < |ls| ==> !On(n, ls[i], ls[j])
    ensures Ordered(n, ls)
  {
    hide On;
  }

  lemma MemberBelow(n: Net, depth: Depth, s: Name, l: Line)
    requires NetOk(n, depth) && s in n.clients && n.clients[s].server && s != n.me && l in Series(n, depth, s)
    ensures l.who in n.clients && l.who != n.me && Below(n, depth, s, l.who)
  {
    hide NetOk, Series;
    SeriesNames(n, depth, s, l);
    if l.who == n.me { BelowDeeper(n, depth, s, n.me); }
  }

  /** The server itself is on nobody below it. */
  lemma ServerLast(n: Net, depth: Depth, s: Name, m: Line)
    requires NetOk(n, depth) && s in n.clients && n.clients[s].server && s != n.me && m in Series(n, depth, s)
    ensures !On(n, Squit(s), m)
  {
    hide NetOk, Series;
    MemberBelow(n, depth, s, m);
    Parent(n, depth, s);
    if m.who == n.clients[s].servptr && m.who != s { BelowDeeper(n, depth, s, m.who); }
  }

  lemma {:induction false} SeriesAllOrdered(n: Net, depth: Depth, s: Name, cs: seq<Name>)
    requires NetOk(n, depth) && s in n.clients && forall c <- cs :: c in n.clients[s].servers
    requires Prefix(cs, n.clients[s].servers)
    ensures Ordered(n, SeriesAll(n, depth, s, cs))
    decreases Deeper(n, depth, s), 0, |cs|
  {
    hide NetOk, Deeper, Below, Series, Ordered, On;
    if cs == [] {
      OrderedEnds(n, Squit(s));
    } else {
      var c, rest := cs[|cs| - 1], cs[..|cs| - 1];
      DeeperShrinks(n, depth, s, c);
      SeriesAllOrdered(n, depth, s, rest);
      SeriesOrdered(n, depth, c);
      LastNew(n, depth, s, cs);
      forall l, m | l in Series(n, depth, c) && m in SeriesAll(n, depth, s, rest) ensures !On(n, l, m) {
        Elsewhere(n, depth, s, rest, c, l, m);
      }
      OrderedJoin(n, SeriesAll(n, depth, s, rest), Series(n, depth, c));
    }
  }

  lemma Elsewhere(n: Net, depth: Depth, s: Name, rest: seq<Name>, c: Name, l: Line, m: Line)
    requires NetOk(n, depth) && s in n.clients && c in n.clients[s].servers && c !in rest
    requires forall b <- rest :: b in n.clients[s].servers
    requires l in Series(n, depth, c) && m in SeriesAll(n, depth, s, rest)
    ensures !On(n, l, m)
  {
    hide NetOk, Series, SeriesAll, Below;
    DeeperShrinks(n, depth, s, c);
    MemberBelow(n, depth, c, l);
    SeriesAllNames(n, depth, s, rest, m);
    var b :| b in rest && b in n.clients && Below(n, depth, b, m.who);
    Listed(n, depth, s, b);
    Listed(n, depth, s, c);
    if On(n, l, m) {
      Parent(n, depth, l.who);
      BelowNext(n, depth, b, l.who);
      Apart(n, depth, s, b, c, l.who);
    }
  }

  lemma BelowNext(n: Net, depth: Depth, s: Name, c: Name)
    requires c in n.clients && c != n.me && depth(n.clients[c].servptr) < depth(c)
    requires Below(n, depth, s, n.clients[c].servptr)
    ensures Below(n, depth, s, c)
  {
  }

  // ----- what is sent, said without the functions above -----

  /** Each client below `s` is named in one line of `out`, a user by QUIT and a server by SQUIT, nobody else is,
      and everyone on a server is named before it. */
  ghost predicate TellsAll(n: Net, depth: Depth, s: Name, out: seq<Line>) {
    && (forall l :: l in out <==> l.who in n.clients && Below(n, depth, s, l.who) && l == LineFor(n, l.who))
    && (forall i, j :: 0 <= i < j < |out| ==> out[i].who != out[j].who)
    && Ordered(n, out)
  }

  /** What a neighbour gets: nothing, if the server is behind it or it has said so itself and takes QS; one
      line, if it takes QS; else a line for everyone. */
  ghost predicate ToldRight(n: Net, depth: Depth, s: Name, to: Neighbour, out: seq<Line>) {
    && (to.behind ==> out == [])
    && (to.qs && to.origin ==> out == [])
    && (to.qs && !to.origin && !to.behind ==> out == [Squit(s)])
    && (!to.qs && !to.behind ==> TellsAll(n, depth, s, out))
  }

  lemma TellingIs(n: Net, depth: Depth, s: Name, to: Neighbour)
    requires NetOk(n, depth) && s in n.clients && n.clients[s].server && s != n.me
    ensures ToldRight(n, depth, s, to, Telling(n, depth, s, to))
  {
    hide NetOk, Series, Below, Ordered;
    SeriesOrdered(n, depth, s);
    SeriesTells(n, depth, s);
  }

  lemma SeriesTells(n: Net, depth: Depth, s: Name)
    requires NetOk(n, depth) && s in n.clients && n.clients[s].server && s != n.me
    ensures TellsAll(n, depth, s, Series(n, depth, s))
  {
    hide NetOk, Series, Below, Ordered;
    var out := Series(n, depth, s);
    SeriesOrdered(n, depth, s);
    SeriesOnce(n, depth, s);
    forall l ensures l in out <==> l.who in n.clients && Below(n, depth, s, l.who) && l == LineFor(n, l.who) {
      SeriesNames(n, depth, s, l);
    }
    forall i, j | 0 <= i < j < |out| ensures out[i].who != out[j].who {
      assert out[i] in out && out[j] in out;
      assert out[i] != out[j];
    }
  }

  // ----- a neighbour that is told -----

  /** QUIT and SQUIT at a neighbour: the client and all that depends on it go; unknown names are ignored. */
  ghost function Receive(m: Net, d: Depth, l: Line): Net {
    if l.who in m.clients && (l.Squit? ==> m.clients[l.who].server) then PruneNet(m, AllBelow(m, d, l.who)) else m
  }

  ghost function ReceiveAll(m: Net, d: Depth, ls: seq<Line>): Net {
    if ls == [] then m else Receive(ReceiveAll(m, d, ls[..|ls| - 1]), d, ls[|ls| - 1])
  }

  /** A line arrives at a neighbour. */
  method Take(t: ClientTable, l: Line)
    requires t.Valid() && l.who != t.me && (l.who in t.clients ==> l == LineFor(t.N(), l.who))
    modifies t`clients, t`global, t.registry
    ensures t.Valid() && t.N() == Receive(old(t.N()), t.depth, l)
  {
    hide NetOk, PruneNet, AllBelow;
    if l.who in t.clients {
      if t.clients[l.who].server {
        t.ExitServer(l.who);
      } else {
        UserIsLeaf(t.N(), t.depth, l.who);
        OnlyItself(t.N(), t.depth, l.who);
        t.ExitOne(l.who);
      }
    }
  }

  lemma UserIsLeaf(n: Net, depth: Depth, u: Name)
    requires NetOk(n, depth) && u in n.clients && !n.clients[u].server
    ensures n.clients[u].servers == [] && n.clients[u].users == []
  {
    hide NetOk;
    Local(n, depth, u);
  }

  /** Everybody that the lines take with them. */
  ghost function Told(m: Net, d: Depth, ls: seq<Line>): set<Name> {
    if ls == [] then {} else Told(m, d, ls[..|ls| - 1]) + AllBelow(m, d, ls[|ls| - 1].who)
  }

  lemma {:induction false} ToldIs(m: Net, d: Depth, ls: seq<Line>, x: Name)
    ensures x in Told(m, d, ls) <==> exists l :: l in ls && Below(m, d, l.who, x)
  {
    hide Below;
    if ls != [] {
      ToldIs(m, d, ls[..|ls| - 1], x);
      BelowKnown(m, d, ls[|ls| - 1].who, x);
      assert ls == ls[..|ls| - 1] + [ls[|ls| - 1]];
    }
  }

  lemma {:induction false} ClosedDown(m: Net, d: Depth, gone: set<Name>, x: Name, c: Name)
    requires NetOk(m, d) && Closed(m, gone) && x in gone && Below(m, d, x, c)
    ensures c in gone
    decreases d(c)
  {
    hide NetOk;
    if c != x { ClosedDown(m, d, gone, x, m.clients[c].servptr); }
  }

  lemma NobodyBelow(m: Net, d: Depth, x: Name)
    requires NetOk(m, d) && x !in m.clients
    ensures AllBelow(m, d, x) == {}
  {
    hide NetOk;
    forall c ensures !Below(m, d, x, c) {
      if Below(m, d, x, c) { BelowDeeper(m, d, x, c); }
    }
  }

  lemma ReceiveStep(m: Net, d: Depth, gone: set<Name>, l: Line)
    requires NetOk(m, d) && Closed(m, gone) && l.who != m.me && (l.who in m.clients ==> l == LineFor(m, l.who))
    ensures Closed(m, gone + AllBelow(m, d, l.who))
    ensures Receive(PruneNet(m, gone), d, l) == PruneNet(m, gone + AllBelow(m, d, l.who))
  {
    hide NetOk, Closed, Below, PruneNet, AllBelow;
    var x, r, all := l.who, PruneNet(m, gone), AllBelow(m, d, l.who);
    PruneKeys(m, gone, x);
    if x !in m.clients {
      NobodyBelow(m, d, x);
      assert gone + all == gone;
    } else if x in gone {
      forall c | c in all ensures c in gone { InBelow(m, d, x, c); ClosedDown(m, d, gone, x, c); }
      assert gone + all == gone;
    } else {
      PruneNetOk(m, d, gone);
      BelowClosed(r, d, x);
      ClosedTwice(m, gone, AllBelow(r, d, x));
      NetWorld(m, d, x);
      PruneNetTwice(m, gone, AllBelow(r, d, x));
      forall c ensures c in gone + AllBelow(r, d, x) <==> c in gone + all { RestBelow(m, d, gone, x, c); }
      assert gone + AllBelow(r, d, x) == gone + all;
    }
  }

  lemma PruneKeys(m: Net, gone: set<Name>, x: Name)
    ensures PruneNet(m, gone).me == m.me && (x in PruneNet(m, gone).clients <==> x in m.clients && x !in gone)
    ensures x in m.clients && x !in gone ==> PruneNet(m, gone).clients[x].server == m.clients[x].server
  {
  }

  lemma RestBelow(m: Net, d: Depth, gone: set<Name>, x: Name, c: Name)
    requires NetOk(m, d) && Closed(m, gone)
    ensures c !in gone ==> (c in AllBelow(PruneNet(m, gone), d, x) <==> c in AllBelow(m, d, x))
  {
    hide NetOk, Closed, Below;
    PruneKeys(m, gone, c);
    if c in m.clients && c !in gone { BelowPruned(m, d, gone, x, c); }
  }

  lemma {:induction false} ReceiveAllIs(m: Net, d: Depth, ls: seq<Line>)
    requires NetOk(m, d)
    requires forall l <- ls :: l.who != m.me && (l.who in m.clients ==> l == LineFor(m, l.who))
    ensures Closed(m, Told(m, d, ls)) && ReceiveAll(m, d, ls) == PruneNet(m, Told(m, d, ls))
  {
    hide NetOk, Closed, PruneNet, Receive;
    if ls == [] {
      PruneNothing(m, d);
    } else {
      ReceiveAllIs(m, d, ls[..|ls| - 1]);
      ReceiveStep(m, d, Told(m, d, ls[..|ls| - 1]), ls[|ls| - 1]);
    }
  }

  /** `m` knows the subtree of `s` as `n` does, as far as it knows it at all. */
  ghost predicate SameBelow(n: Net, depth: Depth, m: Net, d: Depth, s: Name) {
    forall x <- n.clients :: Below(n, depth, s, x) && x in m.clients ==> Below(m, d, s, x)
  }

  /** The two ways of telling come to the same at a neighbour, if and only if it has no client
      of the subtree in another place. */
  lemma SplitAgrees(n: Net, depth: Depth, m: Net, d: Depth, s: Name)
    requires NetOk(n, depth) && NetOk(m, d) && s in n.clients && n.clients[s].server && s in m.clients
    requires !Below(n, depth, s, m.me)
    requires forall x <- n.clients :: x in m.clients ==> n.clients[x].server == m.clients[x].server
    ensures ReceiveAll(m, d, [Squit(s)]) == PruneNet(m, AllBelow(m, d, s))
    ensures ReceiveAll(m, d, Series(n, depth, s)) == ReceiveAll(m, d, [Squit(s)]) <==> SameBelow(n, depth, m, d, s)
  {
    hide NetOk, Closed, PruneNet, Receive, ReceiveAll, Below, Series, AllBelow, Told;
    var ls := Series(n, depth, s);
    var all := Told(m, d, ls);
    forall l ensures l in ls <==> l.who in n.clients && Below(n, depth, s, l.who) && l == LineFor(n, l.who) {
      SeriesNames(n, depth, s, l);
    }
    BelowItself(n, depth, s);
    assert LineFor(n, s) == Squit(s) == LineFor(m, s);
    ReceiveAllIs(m, d, ls);
    SquitIs(m, d, s);
    ToldAll(n, depth, m, d, s);
    if SameBelow(n, depth, m, d, s) {
      assert all == AllBelow(m, d, s);
    } else {
      var x :| x in n.clients && Below(n, depth, s, x) && x in m.clients && !Below(m, d, s, x);
      InBelow(m, d, s, x);
      BelowItself(m, d, x);
      assert LineFor(n, x) in ls;
      ToldIs(m, d, ls, x);
      PruneKeys(m, all, x);
      PruneKeys(m, AllBelow(m, d, s), x);
    }
  }

  lemma SquitIs(m: Net, d: Depth, s: Name)
    requires NetOk(m, d) && s in m.clients && m.clients[s].server
    ensures ReceiveAll(m, d, [Squit(s)]) == PruneNet(m, AllBelow(m, d, s))
  {
    hide NetOk, PruneNet, AllBelow;
    assert [Squit(s)][..0] == [];
    assert ReceiveAll(m, d, []) == m;
  }

  lemma ToldAll(n: Net, depth: Depth, m: Net, d: Depth, s: Name)
    requires NetOk(n, depth) && NetOk(m, d) && s in n.clients && n.clients[s].server && s in m.clients
    ensures SameBelow(n, depth, m, d, s) ==> Told(m, d, Series(n, depth, s)) == AllBelow(m, d, s)
  {
    hide NetOk, Below, Series, AllBelow, Told;
    if SameBelow(n, depth, m, d, s) {
      forall x ensures x in Told(m, d, Series(n, depth, s)) <==> x in AllBelow(m, d, s) {
        ToldBelow(n, depth, m, d, s, x);
      }
    }
  }

  lemma ToldBelow(n: Net, depth: Depth, m: Net, d: Depth, s: Name, x: Name)
    requires NetOk(n, depth) && NetOk(m, d) && s in n.clients && n.clients[s].server && s in m.clients
    requires SameBelow(n, depth, m, d, s)
    ensures x in Told(m, d, Series(n, depth, s)) <==> x in AllBelow(m, d, s)
  {
    hide NetOk, Below, Series, AllBelow, Told;
    var ls := Series(n, depth, s);
    ToldIs(m, d, ls, x);
    InBelow(m, d, s, x);
    if x in Told(m, d, ls) {
      var l :| l in ls && Below(m, d, l.who, x);
      SeriesNames(n, depth, s, l);
      BelowDeeper(m, d, l.who, x);
      BelowThrough(m, d, s, l.who, x);
    }
    if x in AllBelow(m, d, s) {
      BelowItself(n, depth, s);
      SeriesNames(n, depth, s, Squit(s));
      assert Below(m, d, Squit(s).who, x);
    }
  }

  /** One more client, and where it is. */
  method Add(t: ClientTable, c: Name, server: bool, on: Name)
    requires t.Valid() && c !in t.clients && on in t.clients && t.clients[on].server
    modifies t, t.registry
    ensures t.Valid() && t.clients.Keys == old(t.clients.Keys) + {c}
    ensures t.clients[c].servptr == on && t.clients[c].server == server
    ensures forall x <- old(t.clients) ::
      t.clients[x].servptr == old(t.clients)[x].servptr && t.clients[x].server == old(t.clients)[x].server
  {
    hide NetOk;
    t.Introduce(c, server, on);
  }

  predicate Distinct(names: seq<Name>) { forall i, j :: 0 <= i < j < |names| ==> names[i] != names[j] }

  /** A server that knows another one on itself, two servers on `hub`, and a user on one of these. */
  method Table(me: Name, far: Name, x: Name, y: Name, u: Name, hub: Name) returns (t: ClientTable)
    requires Distinct([me, far, x, y, u]) && (hub == me || hub == far)
    ensures fresh(t) && fresh(t.registry) && t.Valid() && t.me == me && t.clients.Keys == {me, far, x, y, u}
    ensures t.clients[far].servptr == me && t.clients[x].servptr == hub && t.clients[y].servptr == hub
    ensures t.clients[u].servptr == x && !t.clients[u].server
    ensures t.clients[far].server && t.clients[x].server && t.clients[y].server && t.clients[me].server
  {
    hide NetOk, ClientTable.Valid, Distinct;
    AllDistinct(me, far, x, y, u);
    t := new ClientTable(me);
    AddThree(t, far, x, y, hub);
    Add(t, u, false, x);
  }

  method AddThree(t: ClientTable, far: Name, x: Name, y: Name, hub: Name)
    requires t.Valid() && t.clients.Keys == {t.me} && t.clients[t.me].server && (hub == t.me || hub == far)
    requires far != t.me && x != t.me && y != t.me && far != x && far != y && x != y
    modifies t, t.registry
    ensures t.Valid() && t.clients.Keys == {t.me, far, x, y}
    ensures t.clients[far].servptr == t.me && t.clients[x].servptr == hub && t.clients[y].servptr == hub
    ensures t.clients[far].server && t.clients[x].server && t.clients[y].server && t.clients[t.me].server
  {
    hide NetOk, ClientTable.Valid;
    Add(t, far, true, t.me);
    Add(t, x, true, hub);
    Add(t, y, true, hub);
  }

  lemma AllDistinct(a: Name, b: Name, c: Name, d: Name, e: Name)
    requires Distinct([a, b, c, d, e])
    ensures a != b && a != c && a != d && a != e && b != c && b != d && b != e && c != d && c != e && d != e
  {
    var s := [a, b, c, d, e];
    assert s[0] == a && s[1] == b && s[2] == c && s[3] == d && s[4] == e;
  }

  /** Two servers that know user "u" in different places, as after a nickname was taken over: server "a" has
      it behind "s", and its neighbour "b", which has "s" behind "a", behind a third server, "c". When "a"
      loses "s", the two ways of telling "b" differ. */
  method TwoPlaces() returns (t: ClientTable, u: ClientTable)
    ensures t.Valid() && u.Valid() && t.me == "a" && u.me == "b" && t.clients.Keys == u.clients.Keys
    ensures "s" in t.clients && t.clients["s"].server && t.clients["s"].servptr == "a" && t.clients["b"].servptr == "a"
    ensures u.clients["a"].servptr == "b" && u.clients["s"].servptr == "a"
    ensures ReceiveAll(u.N(), u.depth, Series(t.N(), t.depth, "s")) != ReceiveAll(u.N(), u.depth, [Squit("s")])
  {
    hide NetOk, ReceiveAll, Series, Unlinked;
    FiveNames();
    t := Table("a", "b", "s", "c", "u", "a");
    u := Table("b", "a", "c", "s", "u", "a");
    InPlaces(t.N(), t.depth, u.N(), u.depth);
    SplitAgrees(t.N(), t.depth, u.N(), u.depth, "s");
  }

  lemma FiveNames()
    ensures Distinct(["a", "b", "s", "c", "u"]) && Distinct(["b", "a", "c", "s", "u"])
    ensures {"a", "b", "s", "c", "u"} == {"b", "a", "c", "s", "u"} == {"a", "s", "b", "c", "u"}
  {
  }

  lemma InPlaces(n: Net, depth: Depth, m: Net, d: Depth)
    requires NetOk(n, depth) && n.clients.Keys == {"a", "s", "b", "c", "u"} && n.me == "a"
    requires n.clients["u"].servptr == "s" && n.clients["b"].servptr == "a"
    requires NetOk(m, d) && m.clients.Keys == {"a", "s", "b", "c", "u"} && m.me == "b"
    requires m.clients["u"].servptr == "c" && m.clients["c"].servptr == "a" && m.clients["a"].servptr == "b"
    ensures !SameBelow(n, depth, m, d, "s") && !Below(n, depth, "s", "b")
  {
    hide NetOk;
    Parent(n, depth, "u");
    OneBelow(n, depth, "s", "u");
    NotBelow(n, depth, "s", "b");
    NotBelow(m, d, "s", "a");
    NotBelow(m, d, "s", "c");
    NotBelow(m, d, "s", "u");
  }

  /** What depends on something else than `s` does not depend on `s`. */
  lemma NotBelow(n: Net, depth: Depth, s: Name, c: Name)
    requires c in n.clients && c != n.me && c != s && s != n.me
    requires n.clients[c].servptr == n.me || !Below(n, depth, s, n.clients[c].servptr)
    ensures !Below(n, depth, s, c)
  {
  }
}