/** The life cycle of adns queries: submission, sending and resending, replies, child
    queries and their callbacks, the search list, cancellation and collection
    (adns/query.c, reply.c, transmit.c, types.c, event.c). Memory is never exhausted:
    MyMalloc does not return then. */
module Resolver {
  import opened Text
  import opened TimeVals
  import opened ResolverPool

  const UDPRETRYMS := 1500
  const DNS_MAXDOMAIN := 255

  /** What adns__mkquery makes of a name. */
  datatype Encoded = Encodable | TooLong | Invalid

  /** What a reply amounts to once its records are counted and parsed. */
  datatype Reply =
    | Failure(status: Status)       // an error code, a bad or useless packet
    | NoSuchDomain
    | Empty                         // NODATA
    | Restart                       // ask again: at the CNAME that was found, or the same after truncation
    | Answer(kids: nat, fails: Option<Status>, matches: bool)
      // the records wanted: child queries submitted while parsing, whether parsing
      // failed after them, and whether an address asked for is among the records

  /** The query whose family a query belongs to. */
  function Root(p: Pool, h: Handle): Handle
    requires h in p.qs
  {
    if p.qs[h].parent.Some? then p.qs[h].parent.value else h
  }

  /** Working on `h` touches only its family: the top of the family stays, everyone
      outside it stays as it was, and udpw gets no new member but `h`. */
  ghost predicate Frame(p: Pool, p': Pool, h: Handle)
    requires h in p.qs
  {
    var root := Root(p, h);
    && root in p.qs && root in p'.qs && p'.qs[root].parent.None?
    && (forall x <- p'.qs :: x in p.qs && p'.qs[x].parent == p.qs[x].parent)
    && (forall x <- p'.qs :: x != root && x != h ==> p'.qs[x] == p.qs[x])
    && (forall x <- p.qs :: x != root && p.qs[x].parent != Some(root) ==> x in p'.qs)
    && (forall x <- p'.udpw :: x == h || (x in p.udpw && x in p'.qs && p'.qs[x] == p.qs[x]))
  }

  /** The top-level queries. */
  function Tops(p: Pool): set<Handle> { set h | h in p.qs && p.qs[h].parent.None? }

  lemma FrameThen(p: Pool, p': Pool, p'': Pool, h: Handle)
    requires h in p.qs && h in p'.qs && Frame(p, p', h) && Frame(p', p'', h)
    ensures Frame(p, p'', h)
  {
    assert Root(p', h) == Root(p, h);
  }

  lemma LooseLive(cfg: Config, p: Pool, h: Handle)
    requires Inv(cfg, p, {h})
    ensures h in p.qs && p.qs[Root(p, h)].parent.None?
  {
  }

  lemma FrameRefl(cfg: Config, p: Pool, h: Handle)
    requires Inv(cfg, p, {h}) && h in p.qs
    ensures Frame(p, p, h)
  {
  }

  lemma CancelChildStep(cfg: Config, p: Pool, h: Handle, c: Handle)
    requires Inv(cfg, p, {h}) && h in p.qs && c in p.qs[h].children
    ensures var p' := p.(qs := DropChild(p.qs, h, c), udpw := Without(p.udpw, c));
      && Inv(cfg, p', {h}) && Frame(p, p', h) && h in p'.qs
      && p'.qs[h] == p.qs[h].(children := p'.qs[h].children)
      && |p'.qs[h].children| < |p.qs[h].children|
      && forall x <- p'.qs :: x in p.qs
  {
    hide Inv, Without;
    CancelChildKeeps(cfg, p, h, c);
    FamilyOf(cfg, p, h, c);
    FrameRefl(cfg, p, h);
    WithoutIs(p.qs[h].children, c);
    WithoutIs(p.udpw, c);
  }

  lemma FamilyOf(cfg: Config, p: Pool, h: Handle, c: Handle)
    requires Inv(cfg, p, {h}) && h in p.qs && c in p.qs[h].children
    ensures c in p.qs && p.qs[c].parent == Some(h) && p.qs[h].parent.None? && c != h
    ensures NoDup(p.qs[h].children) && NoDup(p.udpw)
  {
    hide QueryOk, NoDup;
  }

  lemma UdpOnlyShrinks(cfg: Config, p: Pool, p': Pool, h: Handle)
    requires Inv(cfg, p, {h}) && Inv(cfg, p', {h}) && h in p.qs && Frame(p, p', h)
    ensures forall x <- p'.udpw :: x in p.udpw
    ensures forall x <- p'.qs :: x in p.qs
  {
  }

  lemma FinishTop(cfg: Config, p: Pool, h: Handle, q': Query)
    requires Inv(cfg, p, {h}) && h in p.qs && p.qs[h].parent.None? && p.qs[h].children == []
    requires q' == p.qs[h].(state := Done, id := -1)
    ensures Inv(cfg, PutOutput(p, h, q'), {}) && Frame(p, PutOutput(p, h, q'), h)
  {
    PutOutputKeeps(cfg, p, h, q');
  }

  lemma FinishChild(cfg: Config, p: Pool, top: Handle, h: Handle)
    requires Inv(cfg, p, {h}) && h in p.qs && p.qs[h].parent == Some(top)
    ensures top in p.qs && p.qs[top].parent.None?
    ensures var p' := p.(qs := DropChild(p.qs, top, h), childw := Without(p.childw, top));
      && Inv(cfg, p', {top}) && top in p'.qs && top !in p'.udpw && h !in p'.qs
      && p'.qs[top].parent.None? && p'.qs[top].kind != Flat && p'.qs[top].state == ChildW && p'.qs[top].id >= 0
      && p'.qs[top].status == Ok
      && (forall x <- p'.qs :: x in p.qs)
      && (forall x <- p'.qs :: x != top ==> p'.qs[x] == p.qs[x])
      && (forall x <- p.qs :: x != h ==> x in p'.qs)
      && (forall x <- p'.udpw :: x != h)
  {
    FinishChildKeeps(cfg, p, top, h);
  }

  lemma FrameChild(p1: Pool, p2: Pool, p3: Pool, top: Handle, h: Handle)
    requires h in p1.qs && p1.qs[h].parent == Some(top) && top in p1.qs && p1.qs[top].parent.None?
    requires top in p2.qs && p2.qs[top].parent.None? && p2.udpw == p1.udpw && h !in p2.qs
    requires forall x <- p2.qs :: x in p1.qs && (x != top ==> p2.qs[x] == p1.qs[x])
    requires forall x <- p1.qs :: x != h ==> x in p2.qs
    requires Frame(p2, p3, top) && (forall x <- p3.udpw :: x in p2.udpw) && top !in p2.udpw
    ensures Frame(p1, p3, h) && h !in p3.qs
  {
  }

  lemma WaitAgain(cfg: Config, p: Pool, h: Handle, q: Query)
    requires Inv(cfg, p, {h}) && h in p.qs && q == p.qs[h] && ChildOk(q)
    ensures Inv(cfg, PutChildw(p, h, q), {}) && Frame(p, PutChildw(p, h, q), h)
  {
    PutChildwKeeps(cfg, p, h, q);
  }

  lemma SetStatus(cfg: Config, p: Pool, h: Handle, q': Query)
    requires Inv(cfg, p, {h}) && h in p.qs && q' == p.qs[h].(status := q'.status)
    requires q'.status == NxDomain && q'.search.on ==> q'.tried == Plan(cfg, q'.search)
    ensures Inv(cfg, p.(qs := p.qs[h := q']), {h}) && Frame(p, p.(qs := p.qs[h := q']), h)
  {
    assert QueryOk(cfg, p.qs[h]);
    UpdateKeeps(cfg, p, h, q');
  }

  /** The query after one more datagram. */
  function Sent(cfg: Config, q: Query, now: TimeVal): Query
    requires cfg.nservers > 0
  {
    q.(timeout := AddMs(now, UDPRETRYMS), udpsent := q.udpsent + {q.nextServer},
       nextServer := (q.nextServer + 1) % cfg.nservers, retries := q.retries + 1, sent := q.sent + 1)
  }

  /** The query after datagrams at these times. */
  function SentAll(cfg: Config, q: Query, times: seq<TimeVal>): Query
    requires cfg.nservers > 0
  {
    if times == [] then q else Sent(cfg, SentAll(cfg, q, times[..|times| - 1]), times[|times| - 1])
  }

  /** The server `i` places behind `s`, around the end of the list. */
  function Around(s: nat, i: nat, n: nat): int { if s + i < n then s + i else s + i - n }

  /** Datagrams go round the servers: as many in a row as there are servers, or fewer, go to different ones,
      one after the other, and after a whole round every server was asked and it is the first one's turn. */
  lemma {:induction false} SendsGoRound(cfg: Config, q: Query, times: seq<TimeVal>)
    requires q.nextServer < cfg.nservers && |times| <= cfg.nservers
    ensures var q' := SentAll(cfg, q, times);
      && q'.nextServer == Around(q.nextServer, |times|, cfg.nservers) && q'.sent == q.sent + |times|
      && (times != [] ==> q'.timeout == AddMs(times[|times| - 1], UDPRETRYMS))
      && (forall i :: 0 <= i < |times| ==> Around(q.nextServer, i, cfg.nservers) in q'.udpsent)
      && (|times| == cfg.nservers ==>
            q'.nextServer == q.nextServer && forall s :: 0 <= s < cfg.nservers ==> s in q'.udpsent)
    ensures forall i, j :: 0 <= i < j < cfg.nservers ==>
      Around(q.nextServer, i, cfg.nservers) != Around(q.nextServer, j, cfg.nservers)
  {
    if times != [] {
      var n, before := |times| - 1, SentAll(cfg, q, times[..|times| - 1]);
      SendsGoRound(cfg, q, times[..n]);
      NextTurn(before.nextServer, cfg.nservers);
      hide AddMs, SentAll;
      var q' := Sent(cfg, before, times[n]);
      forall s | |times| == cfg.nservers && 0 <= s < cfg.nservers ensures s in q'.udpsent {
        var i := if s >= q.nextServer then s - q.nextServer else s + cfg.nservers - q.nextServer;
        assert Around(q.nextServer, i, cfg.nservers) == s;
      }
    }
  }

  lemma NextTurn(s: nat, n: nat)
    requires s < n
    ensures (s + 1) % n == if s + 1 == n then 0 else s + 1
  {
    if s + 1 < n { SmallRest(s + 1, n); }
  }

  lemma SmallRest(x: nat, n: nat)
    requires x < n
    ensures x % n == x
  {
  }

  function CountDots(s: string): nat {
    if s == "" then 0 else (if s[0] == '.' then 1 else 0) + CountDots(s[1..])
  }

  const NO_SEARCH := Search(false, "", false, 0, 0)

  /** query_alloc. */
  function NewQuery(kind: Kind, parent: Option<Handle>): Query {
    Query(ToSend, kind, parent, [], -2, Ok, 0, 0, {}, TimeVal(0, 0), NO_SEARCH, [], 0, 0)
  }

  /** Names that the walk has still to try. */
  function Remaining(cfg: Config, s: Search): nat {
    (if s.pos <= |cfg.searchlist| then |cfg.searchlist| - s.pos else 0) + if s.doneAbs == 1 then 0 else 1
  }

  /** A query about to be sent. */
  predicate Ready(q: Query) { q.state == ToSend && q.children == [] && q.status == Ok }

  lemma LooseNotQueued(cfg: Config, p: Pool, h: Handle)
    requires Inv(cfg, p, {h})
    ensures h !in p.udpw && h !in p.childw && h !in p.output
  {
  }

  /** Storing changed fields of the query being processed. */
  lemma UpdateStep(cfg: Config, p: Pool, h: Handle, q': Query)
    requires Inv(cfg, p, {h}) && h in p.qs && SameFamily(p.qs[h], q') && QueryOk(cfg, q')
    ensures var p' := p.(qs := p.qs[h := q']); Inv(cfg, p', {h}) && Frame(p, p', h)
  {
    UpdateKeeps(cfg, p, h, q');
  }

  lemma SetIdStep(cfg: Config, p: Pool, h: Handle, q': Query)
    requires Inv(cfg, p, {h}) && h in p.qs && q' == p.qs[h].(id := q'.id)
    ensures var p' := p.(qs := p.qs[h := q']); Inv(cfg, p', {h}) && Frame(p, p', h)
  {
    assert QueryOk(cfg, p.qs[h]);
    UpdateStep(cfg, p, h, q');
  }

  lemma SentOk(cfg: Config, q: Query, now: TimeVal)
    requires cfg.nservers > 0 && QueryOk(cfg, q) && q.retries < UDPMAXRETRIES
    ensures QueryOk(cfg, Sent(cfg, q, now))
  {
  }

  lemma SendStep(cfg: Config, p: Pool, h: Handle, now: TimeVal)
    requires cfg.nservers > 0 && Inv(cfg, p, {h}) && h in p.qs && Ready(p.qs[h]) && p.qs[h].id >= 0
    requires p.qs[h].retries < UDPMAXRETRIES
    ensures var p' := PutUdp(p, h, Sent(cfg, p.qs[h], now)); Inv(cfg, p', {}) && Frame(p, p', h)
  {
    assert QueryOk(cfg, p.qs[h]);
    SentOk(cfg, p.qs[h], now);
    PutUdpKeeps(cfg, p, h, Sent(cfg, p.qs[h], now));
  }

  /** One step of the walk keeps to the plan. */
  lemma SearchStepOk(cfg: Config, q: Query, q': Query, name: string)
    requires SearchOk(cfg, q) && q.search.on && q.status == Ok
    requires q' == q.(search := q'.search, tried := q.tried + [name])
    requires var s := q.search;
      if s.doneAbs < 0 || (s.pos >= |cfg.searchlist| && s.doneAbs == 0)
      then q'.search == s.(doneAbs := 1) && name == s.name
      else s.pos < |cfg.searchlist| && q'.search == s.(pos := s.pos + 1) && name == s.name + "." + cfg.searchlist[s.pos]
    ensures SearchOk(cfg, q') && Remaining(cfg, q'.search) < Remaining(cfg, q.search)
  {
    var s, s' := q.search, q'.search;
    var plan := Plan(cfg, s);
    assert Plan(cfg, s') == plan;
    assert Steps(s') == Steps(s) + 1 <= |plan|;
    assert plan[Steps(s)] == name;
    assert plan[..Steps(s) + 1] == plan[..Steps(s)] + [name];
  }

  /** What has been tried is the front of the plan. */
  lemma TriedPlan(cfg: Config, p: Pool, h: Handle)
    requires Inv(cfg, p, {h}) && h in p.qs && p.qs[h].search.on
    ensures var q := p.qs[h]; |q.tried| <= |Plan(cfg, q.search)| && q.tried == Plan(cfg, q.search)[..|q.tried|]
    ensures SearchOk(cfg, p.qs[h])
  {
    hide Plan;
    assert QueryOk(cfg, p.qs[h]);
  }

  /** The name that a step takes is the next one of the plan. */
  lemma NextName(cfg: Config, q: Query, q': Query)
    requires SearchOk(cfg, q) && q.search.on && q.status == Ok && |q'.tried| > 0
    requires var s, name := q.search, q'.tried[|q'.tried| - 1];
      && q' == q.(search := q'.search, tried := q.tried + [name])
      && if s.doneAbs < 0 || (s.pos >= |cfg.searchlist| && s.doneAbs == 0)
         then q'.search == s.(doneAbs := 1) && name == s.name
         else
           && s.pos < |cfg.searchlist| && q'.search == s.(pos := s.pos + 1)
           && name == s.name + "." + cfg.searchlist[s.pos]
    ensures Plan(cfg, q'.search) == Plan(cfg, q.search) && |q.tried| < |Plan(cfg, q.search)|
    ensures q'.tried[|q'.tried| - 1] == Plan(cfg, q.search)[|q.tried|]
  {
    var s := q.search;
    assert Plan(cfg, q'.search) == Plan(cfg, s);
    assert Plan(cfg, s)[Steps(s)] == q'.tried[|q'.tried| - 1];
  }

  lemma SearchStep(cfg: Config, p: Pool, h: Handle, q': Query)
    requires Inv(cfg, p, {h}) && h in p.qs && Ready(p.qs[h]) && p.qs[h].search.on
    requires |q'.tried| > 0
    requires var q, name := p.qs[h], q'.tried[|q'.tried| - 1];
      var s := q.search;
      && q' == q.(search := q'.search, tried := q.tried + [name])
      && if s.doneAbs < 0 || (s.pos >= |cfg.searchlist| && s.doneAbs == 0)
         then q'.search == s.(doneAbs := 1) && name == s.name
         else
           && s.pos < |cfg.searchlist| && q'.search == s.(pos := s.pos + 1)
           && name == s.name + "." + cfg.searchlist[s.pos]
    ensures var p' := p.(qs := p.qs[h := q']); Inv(cfg, p', {h}) && Frame(p, p', h)
    ensures Remaining(cfg, q'.search) < Remaining(cfg, p.qs[h].search)
  {
    hide Plan, Remaining, SearchOk, Frame;
    assert QueryOk(cfg, p.qs[h]);
    SearchStepOk(cfg, p.qs[h], q', q'.tried[|q'.tried| - 1]);
    UpdateStep(cfg, p, h, q');
  }

  /** At the end of the walk every name of the plan has been tried. */
  lemma SearchEnd(cfg: Config, p: Pool, h: Handle)
    requires Inv(cfg, p, {h}) && h in p.qs && p.qs[h].search.on
    requires p.qs[h].search.doneAbs > 0 && p.qs[h].search.pos >= |cfg.searchlist|
    ensures p.qs[h].tried == Plan(cfg, p.qs[h].search)
  {
    assert QueryOk(cfg, p.qs[h]);
  }

  /** Nothing outside the family of the top-level query `root` has changed. */
  ghost predicate Touched(p: Pool, p': Pool, root: Handle) {
    && root in p.qs && root in p'.qs && p.qs[root].parent.None? && p'.qs[root].parent.None?
    && (forall x <- p'.qs :: x != root && p'.qs[x].parent != Some(root) ==> x in p.qs && p'.qs[x] == p.qs[x])
    && (forall x <- p.qs :: x != root && p.qs[x].parent != Some(root) ==> x in p'.qs && p'.qs[x] == p.qs[x])
  }

  lemma TouchedRefl(p: Pool, h: Handle)
    ensures h in p.qs && p.qs[h].parent.None? ==> Touched(p, p, h)
    ensures h in p.qs && Root(p, h) in p.qs && p.qs[Root(p, h)].parent.None? ==> Touched(p, p, Root(p, h))
  {
  }

  lemma TouchedThen(p: Pool, p': Pool, p'': Pool, root: Handle)
    requires Touched(p, p', root) && Touched(p', p'', root)
    ensures Touched(p, p'', root)
  {
  }

  lemma TouchedTops(p: Pool, p': Pool, root: Handle)
    requires Touched(p, p', root)
    ensures Tops(p') == Tops(p)
  {
  }

  lemma TouchedAfterTake(p: Pool, p1: Pool, p': Pool, root: Handle)
    requires Touched(p1, p', root) && p1.qs == p.qs
    ensures Touched(p, p', root)
  {
  }

  lemma FrameTouched(p: Pool, p': Pool, h: Handle)
    requires h in p.qs && Frame(p, p', h)
    ensures Touched(p, p', Root(p, h))
    ensures forall x <- p'.qs :: x in p.qs
  {
  }

  lemma UdpLive(cfg: Config, p: Pool)
    requires Inv(cfg, p, {})
    ensures forall x <- p.udpw :: x in p.qs && Root(p, x) in p.qs && p.qs[Root(p, x)].parent.None?
  {
  }

  lemma TakeUdpStep(cfg: Config, p: Pool, h: Handle)
    requires Inv(cfg, p, {}) && h in p.udpw
    ensures Inv(cfg, TakeUdp(p, h), {h}) && h in p.qs && Ready(p.qs[h]) && p.qs[h].id >= 0
  {
    TakeUdpKeeps(cfg, p, h);
  }

  lemma FamilyTop(cfg: Config, p: Pool, h: Handle)
    requires Inv(cfg, p, {h}) && h in p.qs && p.qs[h].kind != Flat
    ensures p.qs[h].parent.None?
  {
  }

  lemma RestartStep(cfg: Config, p: Pool, h: Handle, q': Query)
    requires Inv(cfg, p, {h}) && h in p.qs
    requires q' == p.qs[h].(id := q'.id, retries := 0, restarts := p.qs[h].restarts + 1)
    ensures var p' := p.(qs := p.qs[h := q']); Inv(cfg, p', {h}) && Frame(p, p', h)
  {
    assert QueryOk(cfg, p.qs[h]);
    UpdateStep(cfg, p, h, q');
  }

  lemma WaitStep(cfg: Config, p: Pool, h: Handle, q': Query)
    requires Inv(cfg, p, {h}) && h in p.qs && q' == p.qs[h].(state := ChildW) && ChildOk(q')
    ensures Inv(cfg, PutChildw(p, h, q'), {}) && Touched(p, PutChildw(p, h, q'), h)
  {
    assert QueryOk(cfg, p.qs[h]);
    PutChildwKeeps(cfg, p, h, q');
  }

  lemma ChildStep(cfg: Config, p: Pool, h: Handle, c: Handle, q: Query, id: nat, now: TimeVal)
    requires cfg.nservers > 0 && Inv(cfg, p, {h}) && h in p.qs && p.qs[h].parent.None? && p.qs[h].kind != Flat
    requires c !in p.qs && q == Sent(cfg, NewQuery(Flat, Some(h)).(id := id), now)
    ensures Inv(cfg, AddChild(p, h, c, q), {h}) && Touched(p, AddChild(p, h, c, q), h)
  {
    AddChildKeeps(cfg, p, h, c, q);
  }

  /** What can happen to a resolver. */
  datatype Event =
    | Ask(owner: string, kind: Kind, search: bool, now: TimeVal)
    | Datagram(h: Handle, serv: nat, r: Reply, now: TimeVal)
    | Tick(now: TimeVal)
    | Collect(which: Option<Handle>)
    | GiveUp(h: Handle)

  /** NXDOMAIN is not a parse failure; it has its own case. */
  predicate Possible(r: Reply) {
    && (r.Failure? ==> r.status != NxDomain)
    && (r.Answer? && r.fails.Some? ==> r.fails.value != NxDomain)
  }

  datatype Checked = Again | NoQuery | Returned(h: Handle, status: Status)

  lemma NewStep(cfg: Config, p: Pool, h: Handle, kind: Kind)
    requires cfg.nservers > 0 && Inv(cfg, p, {}) && h !in p.qs
    ensures Inv(cfg, p.(qs := p.qs[h := NewQuery(kind, None)]), {h})
  {
    AddTopKeeps(cfg, p, h, NewQuery(kind, None));
  }

  lemma StartSearch(cfg: Config, p: Pool, h: Handle, q': Query)
    requires Inv(cfg, p, {h}) && h in p.qs && p.qs[h].tried == [] && p.qs[h].status == Ok
    requires q' == p.qs[h].(search := q'.search)
    requires q'.search.on && q'.search.pos == 0 && q'.search.doneAbs == if q'.search.absFirst then -1 else 0
    ensures var p' := p.(qs := p.qs[h := q']); Inv(cfg, p', {h}) && Frame(p, p', h)
  {
    assert QueryOk(cfg, p.qs[h]);
    assert Plan(cfg, q'.search)[..0] == [];
    UpdateStep(cfg, p, h, q');
  }

  lemma FrameNew(p: Pool, p1: Pool, p': Pool, h: Handle, kind: Kind)
    requires h !in p.qs && p1.qs == p.qs[h := NewQuery(kind, None)] && Frame(p1, p', h)
    requires forall x <- p.qs :: p.qs[x].parent != Some(h)
    ensures h in p'.qs && Tops(p') == Tops(p) + {h}
    ensures forall x <- p.qs :: x in p'.qs && p'.qs[x] == p.qs[x]
    ensures forall x <- p'.qs :: x in p.qs || x == h
  {
  }

  lemma ParentsLive(cfg: Config, p: Pool, h: Handle)
    requires Inv(cfg, p, {}) && h !in p.qs
    ensures forall x <- p.qs :: p.qs[x].parent != Some(h)
  {
  }

  lemma TopsState(cfg: Config, p: Pool)
    requires Inv(cfg, p, {})
    ensures forall h <- Tops(p) ::
      h in p.qs && (p.qs[h].id < 0 <==> p.qs[h].state == Done) && (p.qs[h].state == Done ==> h in p.output)
    ensures forall h <- p.output :: h in Tops(p) && p.qs[h].state == Done && p.qs[h].id < 0
  {
    forall h | h in Tops(p)
      ensures h in p.qs && (p.qs[h].id < 0 <==> p.qs[h].state == Done) && (p.qs[h].state == Done ==> h in p.output)
    {
      assert Queued(p, h);
    }
  }

  /** With nothing waiting for a reply and nothing to hand out there is no query at all:
      a query that waits for children has one on udpw. */
  lemma NothingLeft(cfg: Config, p: Pool)
    requires Inv(cfg, p, {}) && p.udpw == [] && p.output == []
    ensures p.qs == map[]
  {
    forall h | h in p.qs ensures false { SomethingQueued(cfg, p, h); }
  }

  lemma SomethingQueued(cfg: Config, p: Pool, h: Handle)
    requires Inv(cfg, p, {}) && h in p.qs
    ensures p.udpw != [] || p.output != []
  {
    assert Queued(p, h);
    if p.qs[h].state == ChildW {
      assert h in p.childw;
      var c := p.qs[h].children[0];
      assert c in p.qs[h].children;
      assert Queued(p, c);
    }
  }

  lemma ReturnStep(cfg: Config, p: Pool, h: Handle)
    requires Inv(cfg, p, {}) && h in p.output
    ensures h in p.qs
    ensures var p' := p.(output := Without(p.output, h), qs := p.qs - {h});
      Inv(cfg, p', {}) && Tops(p') == Tops(p) - {h}
  {
    TakeOutputKeeps(cfg, p, h);
    var p1 := p.(output := Without(p.output, h));
    DropKeeps(cfg, p1, h);
    assert p1.(qs := p1.qs - {h}) == p.(output := Without(p.output, h), qs := p.qs - {h});
  }

  function Unlinked(p: Pool, h: Handle): Pool
    requires h in p.qs
  {
    match p.qs[h].state
    case ToSend => p.(udpw := Without(p.udpw, h))
    case ChildW => p.(childw := Without(p.childw, h))
    case Done => p.(output := Without(p.output, h))
  }

  lemma CancelUnlink(cfg: Config, p: Pool, h: Handle)
    requires Inv(cfg, p, {}) && h in p.qs
    ensures Inv(cfg, Unlinked(p, h), {h})
  {
    assert Queued(p, h);
    match p.qs[h].state
    case ToSend => TakeUdpKeeps(cfg, p, h);
    case ChildW => TakeChildwKeeps(cfg, p, h);
    case Done => TakeOutputKeeps(cfg, p, h);
  }

  lemma CancelFrame(cfg: Config, p: Pool, p1: Pool, p2: Pool, h: Handle)
    requires h in p.qs && p.qs[h].parent.None? && p1.qs == p.qs
    requires Inv(cfg, p2, {h}) && Frame(p1, p2, h) && h in p2.qs && p2.qs[h].children == []
    ensures Inv(cfg, p2.(qs := p2.qs - {h}), {})
    ensures forall x <- p2.qs :: x != h ==> x in p.qs && p2.qs[x] == p.qs[x]
    ensures forall x <- p.qs :: x != h ==> (x in p2.qs <==> p.qs[x].parent != Some(h))
  {
    DropKeeps(cfg, p2, h);
  }

  lemma CancelTops(p: Pool, p': Pool, h: Handle)
    requires h in p.qs
    requires forall x <- p'.qs :: x in p.qs && p'.qs[x] == p.qs[x] && x != h
    requires forall x <- p.qs :: x in p'.qs <==> x != h && p.qs[x].parent != Some(h)
    ensures Tops(p') == Tops(p) - {h}
  {
  }

  /** The queries on udpw whose time has passed. */
  function Expired(p: Pool, now: TimeVal): set<Handle> {
    set h | h in p.udpw && h in p.qs && Later(now, p.qs[h].timeout)
  }

  lemma SweepStep(cfg: Config, p: Pool, p1: Pool, p2: Pool, h: Handle, now: TimeVal)
    requires cfg.nservers > 0 && Inv(cfg, p, {}) && h in p.udpw && h in p.qs && Later(now, p.qs[h].timeout)
    requires p1 == TakeUdp(p, h) && Frame(p1, p2, h) && Normal(now)
    requires h in p2.udpw ==> h in p2.qs && p2.qs[h] == Sent(cfg, p.qs[h], now)
    ensures Expired(p2, now) < Expired(p, now)
    ensures Tops(p2) == Tops(p) && forall x <- p2.qs :: x in p.qs
  {
    WithoutIs(p.udpw, h);
    LaterIs(now, AddMs(now, UDPRETRYMS));
    assert h in Expired(p, now) && h !in Expired(p2, now);
    forall x | x in Expired(p2, now) ensures x in Expired(p, now) { assert x in p1.udpw; }
    FrameTouched(p1, p2, h);
    TouchedAfterTake(p, p1, p2, Root(p, h));
    TouchedTops(p, p2, Root(p, h));
  }

  /** A query as it is handed out. */
  function Finished(q: Query, st: Status): Query { q.(children := [], state := State.Done, id := -1, status := st) }

  /** What icb_hostaddr and icb_ptr make of `t` when a child ends with `st`. `matches` says
      whether the child found the address that a PTR query was asked about. */
  function Called(t: Query, st: Status, matches: bool): Query {
    if t.kind == Ptr && st != Ok then Finished(t, if st == NxDomain || st == NoData then Inconsistent else st)
    else if t.kind == Ptr && !matches then Finished(t, Inconsistent)
    else if t.children != [] then t
    else Finished(t, t.status)
  }

  // ----- what a waiting query comes to -----

  /** How a child query ended: its status, and whether it found the address in question. */
  datatype ChildEnd = ChildEnd(st: Status, matches: bool)

  /** The waiting query after the children `order` have ended one after the other; those that end after it is
      done count no more. */
  function CalledAll(t: Query, order: seq<Handle>, ends: map<Handle, ChildEnd>): Query
    requires forall h <- order :: h in ends
    decreases |order|
  {
    if order == [] || t.state != ChildW then t
    else
      var e := ends[order[0]];
      CalledAll(Called(t.(children := Without(t.children, order[0])), e.st, e.matches), order[1..], ends)
  }

  /** A child that speaks for the name found for an address. */
  predicate Confirms(e: ChildEnd) { e.st == Ok && e.matches }

  /** What a child that does not makes of a PTR query. */
  function Blame(e: ChildEnd): Status {
    if e.st == Ok || e.st == NxDomain || e.st == NoData then Inconsistent else e.st
  }

  /** The first end that does not confirm. */
  predicate FirstAgainst(order: seq<Handle>, ends: map<Handle, ChildEnd>, i: int)
    requires forall h <- order :: h in ends
  {
    0 <= i < |order| && !Confirms(ends[order[i]]) && forall j :: 0 <= j < i ==> Confirms(ends[order[j]])
  }

  lemma AgainstLater(order: seq<Handle>, ends: map<Handle, ChildEnd>, i: int)
    requires (forall h <- order :: h in ends) && FirstAgainst(order, ends, i) && Confirms(ends[order[0]])
    ensures i > 0 && FirstAgainst(order[1..], ends, i - 1) && order[1..][i - 1] == order[i]
  {
    assert forall j :: 0 <= j < i - 1 ==> order[1..][j] == order[j + 1];
  }

  /** A PTR query ends ok if and only if every name found for the address has the address, and else with the
      fault of the first one, in whatever order they come; an address query always ends ok, after all. */
  lemma {:induction false} WaitingEnds(t: Query, order: seq<Handle>, ends: map<Handle, ChildEnd>)
    requires t.state == ChildW && t.status == Ok && t.kind != Flat && NoDup(t.children) && NoDup(order) && order != []
    requires (forall h <- order :: h in ends) && forall h :: h in t.children <==> h in order
    ensures var q := CalledAll(t, order, ends);
      && q.state == State.Done && q.children == []
      && (t.kind == HostAddr ==> q.status == Ok)
      && (t.kind == Ptr ==> (q.status == Ok <==> forall h <- order :: Confirms(ends[h])))
      && (t.kind == Ptr ==> forall i :: FirstAgainst(order, ends, i) ==> q.status == Blame(ends[order[i]]))
    decreases |order|
  {
    hide Without, NoDup;
    var h, rest := order[0], order[1..];
    FirstOnce(order);
    WithoutIs(t.children, h);
    var e := ends[h];
    var t' := Called(t.(children := Without(t.children, h)), e.st, e.matches);
    assert order == [h] + rest;
    assert forall x :: x in Without(t.children, h) <==> x in rest;
    if rest != [] { assert rest[0] in Without(t.children, h); }
    assert rest == [] <==> Without(t.children, h) == [] by { EmptyIs(Without(t.children, h), rest); }
    if t.kind == HostAddr || Confirms(e) {
      if rest != [] {
        assert t' == t.(children := Without(t.children, h));
        WaitingEnds(t', rest, ends);
        forall i | FirstAgainst(order, ends, i)
          ensures t.kind == Ptr ==> CalledAll(t, order, ends).status == Blame(ends[order[i]])
        {
          if t.kind == Ptr { AgainstLater(order, ends, i); }
        }
      }
    } else {
      assert t'.state == State.Done && t'.status == Blame(e) != Ok && CalledAll(t', rest, ends) == t';
    }
  }

  lemma EmptyIs(a: seq<Handle>, b: seq<Handle>)
    requires forall x :: x in a <==> x in b
    ensures a == [] <==> b == []
  {
    if a != [] { assert a[0] in b; }
    if b != [] { assert b[0] in a; }
  }

  /** The top-level query `q` after a reply that asks for no child queries. */
  predicate Settled(cfg: Config, encode: string -> Encoded, q: Query, r: Reply, now: TimeVal, q': Query)
    requires cfg.nservers > 0
  {
    match r
    case Failure(st) => q' == Finished(q, st)
    case NoSuchDomain =>
      if q.search.on then |q.tried| <= |Plan(cfg, q.search)| && Advanced(q, q') && Walked(cfg, encode, q, q', now)
      else q' == Finished(q, NxDomain)
    case Empty => q' == Finished(q, NoData)
    case Restart => q' == Sent(cfg, q.(id := q'.id, retries := 0, restarts := q.restarts + 1), now)
    case Answer(_, fails, _) => q' == Finished(q, if fails.Some? then fails.value else q.status)
  }

  // ----- which name is asked for -----

  /** The first name from `at` on that is not too long to be sent. */
  function FirstFit(names: seq<string>, at: nat, encode: string -> Encoded): (k: nat)
    requires at <= |names|
    ensures at <= k <= |names|
    decreases |names| - at
  {
    if at == |names| || encode(names[at]) != TooLong then at else FirstFit(names, at + 1, encode)
  }

  /** The query `q` once its current name has been encoded and, if it can be, sent. */
  predicate Asked(cfg: Config, encoded: Encoded, q: Query, q': Query, now: TimeVal)
    requires cfg.nservers > 0
  {
    if encoded == TooLong then q' == Finished(q, DomainTooLong)
    else if encoded != Encodable then q' == Finished(q, OtherFailure(0))
    else if q.retries < UDPMAXRETRIES then q' == Sent(cfg, q.(id := q'.id), now)
    else q' == Finished(q, Timeout)
  }

  /** The search `q` after its next step: all names of the plan up to the first that is not too long have been
      tried, and that one is asked for; if there is none it has failed. */
  predicate Walked(cfg: Config, encode: string -> Encoded, q: Query, q': Query, now: TimeVal)
    requires cfg.nservers > 0 && |q.tried| <= |Plan(cfg, q.search)|
  {
    var names := Plan(cfg, q.search);
    var k := FirstFit(names, |q.tried|, encode);
    SameSearch(q.search, q'.search)
    && if k == |names| then q' == Finished(q.(search := q'.search, tried := names), NxDomain)
    else Asked(cfg, encode(names[k]), q.(search := q'.search, tried := names[..k + 1]), q', now)
  }

  /** The same search, further on. */
  predicate SameSearch(s: Search, s': Search) { s' == s.(pos := s'.pos, doneAbs := s'.doneAbs) }

  lemma WalkEnds(cfg: Config, encode: string -> Encoded, q: Query, q': Query, now: TimeVal)
    requires cfg.nservers > 0 && q.tried == Plan(cfg, q.search) && q' == Finished(q, NxDomain)
    ensures Walked(cfg, encode, q, q', now)
  {
    hide Plan;
  }

  /** The step to the name that comes next in the plan. */
  lemma WalkOn(cfg: Config, encode: string -> Encoded, q: Query, q1: Query, q': Query, now: TimeVal)
    requires cfg.nservers > 0 && |q.tried| < |Plan(cfg, q.search)| && Plan(cfg, q1.search) == Plan(cfg, q.search)
    requires q.tried == Plan(cfg, q.search)[..|q.tried|]
    requires SameSearch(q.search, q1.search)
    requires q1 == q.(search := q1.search, tried := q.tried + [Plan(cfg, q.search)[|q.tried|]])
    requires if encode(Plan(cfg, q.search)[|q.tried|]) == TooLong then Walked(cfg, encode, q1, q', now)
             else Asked(cfg, encode(Plan(cfg, q.search)[|q.tried|]), q1, q', now) && q'.search == q1.search
    ensures Walked(cfg, encode, q, q', now)
  {
    hide Plan;
    var names := Plan(cfg, q.search);
    assert q1.tried == names[..|q.tried| + 1];
  }

  lemma {:induction false} FirstFitIs(names: seq<string>, at: nat, encode: string -> Encoded)
    requires at <= |names|
    ensures var k := FirstFit(names, at, encode);
      (forall j :: at <= j < k ==> encode(names[j]) == TooLong) && (k < |names| ==> encode(names[k]) != TooLong)
    decreases |names| - at
  {
    if at < |names| { FirstFitIs(names, at + 1, encode); }
  }

  lemma {:induction false} CountDotsIs(s: string)
    ensures CountDots(s) == multiset(s)['.']
  {
    if s != "" {
      CountDotsIs(s[1..]);
      assert s == [s[0]] + s[1..];
    }
  }

  /** A name that ends in a dot that is not quoted is not searched for. */
  predicate FinalDot(owner: string) {
    |owner| > 0 && owner[|owner| - 1] == '.' && (|owner| == 1 || owner[|owner| - 2] != '\\')
  }

  /** The names of a search in order: with enough dots the name itself comes first, else last. */
  function NthName(cfg: Config, owner: string, k: nat): string
    requires k <= |cfg.searchlist|
  {
    var early := multiset(owner)['.'] >= cfg.ndots;
    if early && k == 0 then owner
    else if early then owner + "." + cfg.searchlist[k - 1]
    else if k < |cfg.searchlist| then owner + "." + cfg.searchlist[k]
    else owner
  }

  /** A search that has just begun: the last name tried is the first in order that is not too long, and it
      has been asked for once, unless it is no good; when all are too long there is no such domain. */
  predicate SearchBegun(cfg: Config, encode: string -> Encoded, owner: string, q: Query) {
    var n := |q.tried|;
    && q.search.on && 0 < n <= |cfg.searchlist| + 1
    && (forall k :: 0 <= k < n ==> q.tried[k] == NthName(cfg, owner, k))
    && (forall k :: 0 <= k < n - 1 ==> encode(q.tried[k]) == TooLong)
    && (if encode(q.tried[n - 1]) == Encodable then q.state == ToSend && q.sent == 1
        else
          && q.state == State.Done && q.sent == 0
          && (if encode(q.tried[n - 1]) == TooLong then n == |cfg.searchlist| + 1 && q.status == NxDomain
              else q.status == OtherFailure(0)))
  }

  /** A query for one name that has just begun. */
  predicate SingleBegun(encoded: Encoded, q: Query) {
    && !q.search.on && q.tried == []
    && (if encoded == Encodable then q.state == ToSend && q.sent == 1
        else q.state == State.Done && q.sent == 0
             && q.status == if encoded == TooLong then DomainTooLong else OtherFailure(0))
  }

  /** What adns_submit starts for a name. */
  predicate Begun(cfg: Config, encode: string -> Encoded, owner: string, search: bool, q: Query) {
    if owner == "" then q.state == State.Done && q.status == OtherFailure(1) && !q.search.on && q.sent == 0
    else if |owner| > DNS_MAXDOMAIN + 1 then
      q.state == State.Done && q.status == DomainTooLong && !q.search.on && q.sent == 0
    else if search && !FinalDot(owner) then SearchBegun(cfg, encode, owner, q)
    else SingleBegun(encode(if FinalDot(owner) then owner[..|owner| - 1] else owner), q)
  }

  /** A fresh query. */
  predicate Unasked(q: Query) { q.parent.None? && q.tried == [] && q.retries == q.sent == 0 && Ready(q) }

  lemma SearchBegins(cfg: Config, encode: string -> Encoded, owner: string, q: Query, q': Query, now: TimeVal)
    requires cfg.nservers > 0 && Unasked(q) && q.search.on && q.search.name == owner
    requires q.search.absFirst <==> multiset(owner)['.'] >= cfg.ndots
    requires Walked(cfg, encode, q, q', now)
    ensures SearchBegun(cfg, encode, owner, q')
  {
    hide Plan, NthName;
    var names := Plan(cfg, q.search);
    FirstFitIs(names, 0, encode);
    PlanNames(cfg, q.search);
    var k := FirstFit(names, 0, encode);
    assert q'.tried == if k == |names| then names else names[..k + 1];
  }

  lemma PlanNames(cfg: Config, s: Search)
    requires s.absFirst <==> multiset(s.name)['.'] >= cfg.ndots
    ensures |Plan(cfg, s)| == |cfg.searchlist| + 1
    ensures forall k :: 0 <= k < |Plan(cfg, s)| ==> Plan(cfg, s)[k] == NthName(cfg, s.name, k)
  {
  }

  lemma SingleBegins(cfg: Config, encoded: Encoded, q: Query, q': Query, now: TimeVal)
    requires cfg.nservers > 0 && Unasked(q) && !q.search.on && Asked(cfg, encoded, q, q', now)
    ensures SingleBegun(encoded, q')
  {
  }

  /** A search has tried more names, or failed after the last. */
  predicate Advanced(q: Query, q': Query) { q.tried < q'.tried || q' == Finished(q, NxDomain) }

  /** What the outcomes of a reply are, one by one. */
  lemma SettledMeans(cfg: Config, encode: string -> Encoded, q: Query, r: Reply, now: TimeVal, q': Query)
    requires cfg.nservers > 0 && q.status == Ok && Settled(cfg, encode, q, r, now, q')
    ensures r.Failure? ==> q'.state == State.Done && q'.status == r.status
    ensures r.NoSuchDomain? && !q.search.on ==> q'.state == State.Done && q'.status == NxDomain
    ensures r.Empty? ==> q'.state == State.Done && q'.status == NoData
    ensures r.Restart? ==>
      q'.state == q.state && q'.retries == 1 && q'.sent == q.sent + 1 && q'.restarts == q.restarts + 1
      && q'.search == q.search && q'.tried == q.tried
    ensures r.Answer? ==> q'.state == State.Done && q'.status == if r.fails.Some? then r.fails.value else Ok
    ensures Finishes(q, r) ==> q'.status == StatusBy(q, r) && q'.children == [] && q'.tried == q.tried
    ensures !r.Restart? && !Finishes(q, r) ==> r.NoSuchDomain? && q.search.on
  {
  }

  lemma ChildLeaf(cfg: Config, p: Pool, h: Handle)
    requires Inv(cfg, p, {h}) && h in p.qs && p.qs[h].parent.Some?
    ensures p.qs[h].children == [] && p.qs[h].parent.value in p.qs && p.qs[h].parent.value != h
  {
    hide QueryOk;
  }

  lemma DroppedAt(qs: map<Handle, Query>, h: Handle, c: Handle)
    requires h in qs
    ensures h in DropChild(qs, h, c) && DropChild(qs, h, c)[h] == qs[h].(children := Without(qs[h].children, c))
  {
  }

  /** The status that a reply gives its query when it is finished by it. */
  function StatusBy(q: Query, r: Reply): Status {
    match r
    case Failure(st) => st
    case NoSuchDomain => NxDomain
    case Empty => NoData
    case Restart => q.status
    case Answer(_, fails, _) => if fails.Some? then fails.value else q.status
  }

  /** The reply finishes the query, neither searching on nor asking again. */
  predicate Finishes(q: Query, r: Reply) { !r.Restart? && !(r.NoSuchDomain? && q.search.on) }

  /** The parent `t'`, which was `t`, after such a reply to its child `h`, which was `q`. */
  predicate ParentTold(q: Query, r: Reply, h: Handle, t: Query, t': Query) {
    t' == Called(t.(children := Without(t.children, h)), StatusBy(q, r), r.Answer? && r.fails.None? && r.matches)
  }

  // ----- the sweep over queries whose time has passed -----

  /** What a sweep makes of a query `q` that was waiting for a reply; before it comes to it, nothing,
      unless the family is cancelled. */
  predicate SweptOne(cfg: Config, q: Query, p: Pool, x: Handle, swept: bool, now: TimeVal)
    requires cfg.nservers > 0
  {
    if swept && q.retries >= UDPMAXRETRIES then
      if q.parent.None? then x in p.qs && p.qs[x] == Finished(q, Timeout) else x !in p.qs
    else
      && (q.parent.None? ==> x in p.qs)
      && (x in p.qs ==> x in p.udpw && p.qs[x] == if swept then Sent(cfg, q, now) else q)
  }

  ghost predicate SweepOk(cfg: Config, p0: Pool, p: Pool, done: set<Handle>, now: TimeVal)
    requires cfg.nservers > 0
  {
    && (forall x <- p.udpw :: x in p0.udpw)
    && (forall x <- done :: x in p0.udpw && x in p0.qs && Later(now, p0.qs[x].timeout))
    && forall x <- p0.udpw :: x in p0.qs && SweptOne(cfg, p0.qs[x], p, x, x in done, now)
  }

  /** Those of `cs` that are not dead, in their order. */
  function Left(cs: seq<Handle>, dead: set<Handle>): seq<Handle> {
    if cs == [] then [] else (if cs[0] in dead then [] else [cs[0]]) + Left(cs[1..], dead)
  }

  /** Those of `late` that have been asked for the last time. */
  function Dead(p: Pool, late: set<Handle>): set<Handle> {
    set c | c in late && c in p.qs && p.qs[c].retries >= UDPMAXRETRIES
  }

  /** What becomes of a query that waits for its children when those in `dead` time out: nothing, if none of
      them is its child; a PTR query times out itself; any other waits for those that are left, or is
      finished as it stands. */
  function Bereft(q: Query, dead: set<Handle>): Query {
    var left := Left(q.children, dead);
    if left == q.children then q
    else if q.kind == Ptr then Finished(q, Timeout)
    else if left == [] then Finished(q, q.status)
    else q.(children := left)
  }

  /** The queries that wait for children, and those that wait to be collected. */
  ghost predicate SweptTops(p0: Pool, p: Pool, dead: set<Handle>) {
    && (forall t <- p0.childw :: t in p0.qs && t in p.qs && p.qs[t] == Bereft(p0.qs[t], dead))
    && (forall t <- p0.output :: t in p0.qs && t in p.qs && p.qs[t] == p0.qs[t])
  }

  /** A child is there as long as its parent waits for it. */
  predicate SweptChild(q: Query, p: Pool, x: Handle) {
    q.parent.Some? ==> q.parent.value in p.qs && (x in p.qs <==> x in p.qs[q.parent.value].children)
  }

  /** A sweep deals with exactly the queries whose time has passed, and with those that wait for them. */
  ghost predicate Swept(cfg: Config, p0: Pool, p: Pool, now: TimeVal)
    requires cfg.nservers > 0
  {
    && (forall x <- p0.udpw :: x in p0.qs && SweptOne(cfg, p0.qs[x], p, x, Later(now, p0.qs[x].timeout), now)
                               && SweptChild(p0.qs[x], p, x))
    && SweptTops(p0, p, Dead(p0, Expired(p0, now)))
  }

  lemma SweepEnd(cfg: Config, p0: Pool, p: Pool, done: set<Handle>, now: TimeVal)
    requires cfg.nservers > 0 && Inv(cfg, p0, {}) && Inv(cfg, p, {})
    requires SweepOk(cfg, p0, p, done, now) && Expired(p, now) == {}
    requires SweptTops(p0, p, Dead(p0, done))
    ensures Swept(cfg, p0, p, now)
  {
    hide Inv, Expired, QueryOk, SweptTops, SweptChild, Dead;
    forall x | x in p0.udpw
      ensures SweptOne(cfg, p0.qs[x], p, x, Later(now, p0.qs[x].timeout), now) && SweptChild(p0.qs[x], p, x)
    {
      NotLate(p, x, now);
      ChildThere(cfg, p0, p, x, Dead(p0, done));
    }
    TopsEnd(cfg, p0, p, done, now);
  }

  lemma ParentWaits(cfg: Config, p: Pool, x: Handle)
    requires Inv(cfg, p, {}) && x in p.qs && p.qs[x].parent.Some?
    ensures var t := p.qs[x].parent.value; t in p.childw && t in p.qs && x in p.qs[t].children
  {
    hide QueryOk;
    var t := p.qs[x].parent.value;
    assert t in p.qs && x in p.qs[t].children;
    assert Queued(p, t);
  }

  lemma ChildOf(cfg: Config, p: Pool, t: Handle, x: Handle)
    requires Inv(cfg, p, {}) && t in p.qs && x in p.qs[t].children
    ensures x in p.qs && p.qs[x].parent == Some(t) && p.qs[t].parent.None? && NoDup(p.qs[t].children)
    ensures x in p.udpw && p.qs[x].state == ToSend && p.qs[t].kind != Flat
  {
    hide QueryOk;
    assert Queued(p, x);
  }

  lemma ChildThere(cfg: Config, p0: Pool, p: Pool, x: Handle, dead: set<Handle>)
    requires Inv(cfg, p0, {}) && Inv(cfg, p, {}) && x in p0.qs && SweptTops(p0, p, dead)
    requires x in p.qs ==> p.qs[x].parent == p0.qs[x].parent
    ensures SweptChild(p0.qs[x], p, x)
  {
    hide Inv, QueryOk, Bereft;
    if p0.qs[x].parent.Some? {
      var t := p0.qs[x].parent.value;
      ParentWaits(cfg, p0, x);
      if x in p.qs { ParentWaits(cfg, p, x); }
      if x in p.qs[t].children { ChildOf(cfg, p, t, x); }
    }
  }

  lemma {:induction false} LeftHas(cs: seq<Handle>, dead: set<Handle>)
    ensures forall x :: x in Left(cs, dead) <==> x in cs && x !in dead
    ensures (forall x <- cs :: x !in dead) ==> Left(cs, dead) == cs
  {
    if cs != [] {
      LeftHas(cs[1..], dead);
      assert cs == [cs[0]] + cs[1..];
    }
  }

  lemma {:induction false} LeftSame(cs: seq<Handle>, dead: set<Handle>, more: set<Handle>)
    requires forall x <- cs :: x in dead <==> x in more
    ensures Left(cs, dead) == Left(cs, more)
  {
    if cs != [] {
      assert forall x <- cs[1..] :: x in cs;
      LeftSame(cs[1..], dead, more);
    }
  }

  lemma {:induction false} LeftMore(cs: seq<Handle>, dead: set<Handle>, h: Handle)
    requires NoDup(cs)
    ensures Left(cs, dead + {h}) == Without(Left(cs, dead), h)
  {
    if cs != [] {
      var rest := cs[1..];
      FirstOnce(cs);
      LeftMore(rest, dead, h);
      var l := Left(rest, dead);
      assert ([cs[0]] + l)[1..] == l && [] + l == l;
      if cs[0] == h {
        LeftSame(rest, dead, dead + {h});
        LeftHas(rest, dead);
        NotThere(l, h);
      }
    }
  }

  lemma FirstOnce(cs: seq<Handle>)
    requires NoDup(cs) && cs != []
    ensures NoDup(cs[1..]) && cs[0] !in cs[1..]
  {
    forall i | 0 <= i < |cs| - 1 ensures cs[1..][i] != cs[0] { assert cs[0] != cs[i + 1]; }
  }

  lemma {:induction false} NotThere(s: seq<Handle>, h: Handle)
    requires h !in s
    ensures Without(s, h) == s
  {
    if s != [] { NotThere(s[1..], h); }
  }

  /** A query that still waits, after those in `dead` and then `h` have timed out. */
  lemma BereftMore(q: Query, dead: set<Handle>, h: Handle)
    requires NoDup(q.children) && h in Bereft(q, dead).children && q.kind != Flat
    ensures var w := Bereft(q, dead);
      Bereft(q, dead + {h}) == Called(w.(children := Without(w.children, h)), Timeout, false)
  {
    LeftMore(q.children, dead, h);
    LeftHas(q.children, dead);
    LeftHas(q.children, dead + {h});
    var w := Bereft(q, dead);
    assert w == q.(children := Left(q.children, dead));
  }

  lemma BereftSame(q: Query, dead: set<Handle>, more: set<Handle>)
    requires forall x <- q.children :: x in dead <==> x in more
    ensures Bereft(q, dead) == Bereft(q, more)
  {
    LeftSame(q.children, dead, more);
  }

  /** One query less to sweep, for those that wait. */
  lemma TopsMore(cfg: Config, p0: Pool, p: Pool, p2: Pool, done: set<Handle>, h: Handle, now: TimeVal)
    requires cfg.nservers > 0 && Inv(cfg, p0, {}) && Inv(cfg, p, {})
    requires h in p.udpw && h in p.qs && h in p0.qs && p.qs[h] == p0.qs[h] && Frame(TakeUdp(p, h), p2, h)
    requires SweptTops(p0, p, Dead(p0, done))
    requires p.qs[h].retries < UDPMAXRETRIES ==> p2.qs == p.qs[h := Sent(cfg, p.qs[h], now)]
    requires p.qs[h].retries >= UDPMAXRETRIES && p.qs[h].parent.Some? ==>
      var t := p.qs[h].parent.value;
      t in p.qs && t in p2.qs && p2.qs[t] == Called(p.qs[t].(children := Without(p.qs[t].children, h)), Timeout, false)
    ensures SweptTops(p0, p2, Dead(p0, done + {h}))
  {
    hide Inv, QueryOk, Bereft, Called, Without;
    var dead, more := Dead(p0, done), Dead(p0, done + {h});
    UdpIs(cfg, p, h);
    forall t | t in p0.childw ensures t in p2.qs && p2.qs[t] == Bereft(p0.qs[t], more) {
      WaitsTop(cfg, p0, t, dead);
      if p.qs[h].retries < UDPMAXRETRIES {
        assert more == dead;
      } else {
        assert more == dead + {h};
        if p.qs[h].parent == Some(t) {
          ParentWaits(cfg, p, h);
          BereftMore(p0.qs[t], dead, h);
        } else {
          if h in p0.qs[t].children { ChildOf(cfg, p0, t, h); }
          BereftSame(p0.qs[t], dead, more);
        }
      }
    }
    forall t | t in p0.output ensures t in p2.qs && p2.qs[t] == p0.qs[t] {
      DoneTop(cfg, p0, t);
      if p.qs[h].parent == Some(t) { ParentWaits(cfg, p, h); }
    }
  }

  lemma WaitsTop(cfg: Config, p: Pool, t: Handle, dead: set<Handle>)
    requires Inv(cfg, p, {}) && t in p.childw
    ensures t in p.qs && p.qs[t].parent.None? && NoDup(p.qs[t].children) && p.qs[t].kind != Flat
    ensures Bereft(p.qs[t], dead).state != ToSend && Bereft(p.qs[t], dead).parent.None?
  {
    hide QueryOk, Left;
  }

  lemma DoneTop(cfg: Config, p: Pool, t: Handle)
    requires Inv(cfg, p, {}) && t in p.output
    ensures t in p.qs && p.qs[t].parent.None? && p.qs[t].children == [] && p.qs[t].state == State.Done
  {
    hide QueryOk;
  }

  /** Children that the sweep did not come to are gone only with a parent that had failed by then. */
  lemma TopsEnd(cfg: Config, p0: Pool, p: Pool, done: set<Handle>, now: TimeVal)
    requires cfg.nservers > 0 && Inv(cfg, p0, {}) && Inv(cfg, p, {})
    requires SweepOk(cfg, p0, p, done, now) && Expired(p, now) == {}
    requires SweptTops(p0, p, Dead(p0, done))
    ensures SweptTops(p0, p, Dead(p0, Expired(p0, now)))
  {
    hide Inv, QueryOk, Called, Without, Left;
    var dead, all := Dead(p0, done), Dead(p0, Expired(p0, now));
    assert dead <= all;
    forall t | t in p0.childw ensures p.qs[t] == Bereft(p0.qs[t], all) {
      var q := p0.qs[t];
      LeftHas(q.children, dead);
      LeftHas(q.children, all);
      if x :| x in q.children && x in all && x !in dead {
        ChildOf(cfg, p0, t, x);
        NotLate(p, x, now);
        assert x !in p.qs;
        if x in p.qs[t].children { ChildOf(cfg, p, t, x); }
      } else {
        BereftSame(q, dead, all);
      }
    }
  }

  lemma NotLate(p: Pool, x: Handle, now: TimeVal)
    requires Expired(p, now) == {}
    ensures x in p.udpw && x in p.qs ==> !Later(now, p.qs[x].timeout)
  {
    assert x !in Expired(p, now);
  }

  lemma ChildIsFlat(cfg: Config, p: Pool, h: Handle)
    requires Inv(cfg, p, {}) && h in p.qs
    ensures p.qs[h].parent.Some? ==> p.qs[h].kind == Flat
  {
    hide QueryOk;
  }

  lemma NotRoot(cfg: Config, p: Pool, h: Handle, x: Handle)
    requires Inv(cfg, p, {}) && h in p.udpw && x in p.qs && x != h && p.qs[x].children == []
    ensures h in p.qs && Root(p, h) != x
  {
    hide QueryOk;
  }

  lemma StillQueued(cfg: Config, p: Pool, x: Handle)
    requires Inv(cfg, p, {}) && x in p.qs && p.qs[x].state == ToSend
    ensures x in p.udpw
  {
    hide QueryOk, FamilyOk, NoDup;
    assert Queued(p, x);
  }

  lemma UdpIs(cfg: Config, p: Pool, x: Handle)
    requires Inv(cfg, p, {}) && x in p.udpw
    ensures x in p.qs && p.qs[x].state == ToSend && p.qs[x].children == []
  {
  }

  /** One query less to sweep. */
  lemma SweepMore(cfg: Config, p0: Pool, p: Pool, p2: Pool, done: set<Handle>, h: Handle, now: TimeVal)
    requires cfg.nservers > 0 && Inv(cfg, p, {}) && Inv(cfg, p2, {}) && SweepOk(cfg, p0, p, done, now) && Normal(now)
    requires h in p.udpw && h in p.qs && Later(now, p.qs[h].timeout) && Frame(TakeUdp(p, h), p2, h)
    requires h in p2.udpw <==> p.qs[h].retries < UDPMAXRETRIES
    requires h in p2.udpw ==> h in p2.qs && p2.qs[h] == Sent(cfg, p.qs[h], now)
    requires h !in p2.udpw && p.qs[h].parent.None? ==> h in p2.qs && p2.qs[h] == Finished(p.qs[h], Timeout)
    requires h !in p2.udpw && p.qs[h].parent.Some? ==> h !in p2.qs
    requires forall x <- p0.udpw :: x in p0.qs && p0.qs[x].children == [] && p0.qs[x].state == ToSend
    ensures SweepOk(cfg, p0, p2, done + {h}, now)
  {
    hide Inv, QueryOk;
    LaterIs(now, AddMs(now, UDPRETRYMS));
    UdpIs(cfg, p, h);
    assert h in p0.udpw && h !in done;
    WithoutShrinks(cfg, p, h);
    forall x | x in p0.udpw ensures SweptOne(cfg, p0.qs[x], p2, x, x in done + {h}, now) {
      if x != h && x in p.qs {
        NotRoot(cfg, p, h, x);
        if x in p2.qs && p2.qs[x].state == ToSend { StillQueued(cfg, p2, x); }
      }
    }
  }

  lemma SweepStart(cfg: Config, p: Pool, now: TimeVal)
    requires cfg.nservers > 0 && Inv(cfg, p, {})
    ensures SweepOk(cfg, p, p, {}, now)
    ensures forall x <- p.udpw :: x in p.qs && p.qs[x].children == [] && p.qs[x].state == ToSend
  {
    hide Inv, QueryOk;
    forall x | x in p.udpw ensures x in p.qs && p.qs[x].children == [] && p.qs[x].state == ToSend { UdpIs(cfg, p, x); }
  }

  lemma TopsStart(cfg: Config, p: Pool)
    requires Inv(cfg, p, {})
    ensures SweptTops(p, p, Dead(p, {}))
  {
    hide QueryOk, Left;
    forall t | t in p.childw ensures t in p.qs && p.qs[t] == Bereft(p.qs[t], Dead(p, {})) {
      LeftHas(p.qs[t].children, Dead(p, {}));
    }
  }

  lemma NotSwept(cfg: Config, p0: Pool, p: Pool, done: set<Handle>, h: Handle, now: TimeVal)
    requires cfg.nservers > 0 && Inv(cfg, p, {}) && SweepOk(cfg, p0, p, done, now) && Normal(now)
    requires h in p.udpw && h in p.qs && Later(now, p.qs[h].timeout)
    ensures h in p0.qs && p.qs[h] == p0.qs[h]
  {
    UdpIs(cfg, p, h);
    hide Inv;
    LaterIs(now, AddMs(now, UDPRETRYMS));
    assert SweptOne(cfg, p0.qs[h], p, h, h in done, now);
  }

  lemma NoneExpired(p: Pool, now: TimeVal)
    requires forall k :: 0 <= k < |p.udpw| ==> p.udpw[k] in p.qs && !Later(now, p.qs[p.udpw[k]].timeout)
    ensures Expired(p, now) == {}
  {
  }

  lemma WithoutShrinks(cfg: Config, p: Pool, h: Handle)
    requires Inv(cfg, p, {})
    ensures forall x <- TakeUdp(p, h).udpw :: x in p.udpw
  {
    WithoutIs(p.udpw, h);
  }

  class Resolver {
    const cfg: Config
    const encode: string -> Encoded
    var queries: map<Handle, Query>
    var udpw: seq<Handle>
    var childw: seq<Handle>
    var output: seq<Handle>
    var nextHandle: Handle
    var nextid: nat
    ghost var submitted: set<Handle>
    ghost var returned: set<Handle>
    ghost var cancelled: set<Handle>

    ghost function P(): Pool
      reads this
    {
      Pool(queries, udpw, childw, output)
    }

    /** Consistent in the middle of processing the queries `loose`. */
    ghost predicate Busy(loose: set<Handle>)
      reads this
    {
      && cfg.nservers > 0 && Inv(cfg, P(), loose)
      && (forall h <- queries :: h < nextHandle)
    }

    /** adns__consistency, and the books: every query handed to the caller is live until
        it is returned or cancelled, and it is one of them at most once. */
    ghost predicate Valid()
      reads this
    {
      && Busy({})
      && Tops(P()) == submitted - returned - cancelled
      && returned !! cancelled && returned + cancelled <= submitted
      && (forall h <- submitted :: h < nextHandle)
    }

    constructor (cfg: Config, encode: string -> Encoded)
      requires cfg.nservers > 0
      ensures Valid() && queries == map[] && submitted == {}
    {
      this.cfg, this.encode := cfg, encode;
      queries, udpw, childw, output := map[], [], [], [];
      nextHandle, nextid := 0, 0;
      submitted, returned, cancelled := {}, {}, {};
    }

    /** cancel_children: the children leave udpw and are freed. */
    method CancelChildren(h: Handle)
      requires Busy({h})
      modifies `queries, `udpw
      ensures Busy({h}) && Frame(old(P()), P(), h) && h in queries
      ensures queries[h] == old(queries[h]).(children := [])
      ensures old(queries[h]).children == [] ==> queries == old(queries)
    {
      hide Inv, Frame, DropChild, Without;
      LooseLive(cfg, P(), h);
      ghost var p0 := P();
      ghost var q0 := queries[h];
      FrameRefl(cfg, p0, h);
      while |queries[h].children| > 0
        invariant h in queries && Busy({h}) && h in p0.qs && Frame(p0, P(), h)
        invariant queries[h] == q0.(children := queries[h].children)
        invariant q0.children == [] ==> queries == p0.qs
        decreases |queries[h].children|
      {
        var c := queries[h].children[0];
        ghost var p1 := P();
        CancelChildStep(cfg, p1, h, c);
        udpw := Without(udpw, c);
        queries := DropChild(queries, h, c);
        FrameThen(p0, p1, P(), h);
      }
    }

    /** adns__query_done: the query is finished. A top-level one goes to the output
        queue; a child is freed and reports to its parent. */
    method QueryDone(h: Handle, matches: bool)
      requires Busy({h})
      modifies `queries, `udpw, `childw, `output
      ensures Busy({}) && Frame(old(P()), P(), h)
      ensures forall x <- udpw :: x in old(udpw)
      ensures old(queries[h].parent.None?) ==>
          h in queries && queries[h] == Finished(old(queries[h]), old(queries[h].status))
      ensures old(queries[h].parent.Some?) ==>
        var q := old(queries[h]);
        var top := q.parent.value;
        var t := old(queries)[top];
        && top in old(queries) && top in queries && h !in queries
        && queries[top] == Called(t.(children := Without(t.children, h)), q.status, matches)
      decreases if queries[h].parent.Some? then 1 else 0, 1
    {
      hide Inv, Frame, DropChild, Without, QueryOk;
      LooseLive(cfg, P(), h);
      ghost var p0 := P();
      if queries[h].parent.Some? { ChildLeaf(cfg, p0, h); }
      CancelChildren(h);
      ghost var p1 := P();
      UdpOnlyShrinks(cfg, p0, p1, h);
      var q := queries[h];
      if q.parent.None? {
        var q' := q.(state := Done, id := -1);
        FinishTop(cfg, p1, h, q');
        queries, output := queries[h := q'], output + [h];
        FrameThen(p0, p1, P(), h);
      } else {
        var top := q.parent.value;
        FinishChild(cfg, p1, top, h);
        DroppedAt(queries, top, h);
        queries, childw := DropChild(queries, top, h), Without(childw, top);
        ghost var p2 := P();
        Callback(top, q, matches);
        FrameChild(p1, p2, P(), top, h);
        FrameThen(p0, p1, P(), h);
      }
    }

    /** icb_hostaddr and icb_ptr: a child of `top` has finished. */
    method Callback(top: Handle, child: Query, matches: bool)
      requires Busy({top}) && top in queries && queries[top].parent.None? && queries[top].kind != Flat
      requires queries[top].state == ChildW && queries[top].id >= 0 && queries[top].status == Ok
      modifies `queries, `udpw, `childw, `output
      ensures Busy({}) && Frame(old(P()), P(), top)
      ensures forall x <- udpw :: x in old(udpw)
      ensures top in queries && queries[top] == Called(old(queries)[top], child.status, matches)
      decreases 0, 3
    {
      hide Inv, Frame, QueryOk;
      if queries[top].kind == Ptr {
        if child.status == NxDomain || child.status == NoData {
          QueryFail(top, Inconsistent);
          return;
        } else if child.status != Ok {
          QueryFail(top, child.status);
          return;
        } else if !matches {
          QueryFail(top, Inconsistent);
          return;
        }
      }
      if |queries[top].children| > 0 {
        WaitAgain(cfg, P(), top, queries[top]);
        queries, childw := queries[top := queries[top]], childw + [top];
      } else {
        QueryDone(top, matches);
      }
    }

    /** adns__query_fail. */
    method QueryFail(h: Handle, st: Status)
      requires Busy({h})
      requires st == NxDomain && queries[h].search.on ==> queries[h].tried == Plan(cfg, queries[h].search)
      modifies `queries, `udpw, `childw, `output
      ensures Busy({}) && Frame(old(P()), P(), h)
      ensures forall x <- udpw :: x in old(udpw)
      ensures old(queries[h].parent.None?) ==> h in queries && queries[h] == Finished(old(queries[h]), st)
      ensures old(queries[h].parent.Some?) ==>
        var top := old(queries[h]).parent.value;
        var t := old(queries)[top];
        && top in old(queries) && top in queries && h !in queries
        && queries[top] == Called(t.(children := Without(t.children, h)), st, false)
      decreases if queries[h].parent.Some? then 1 else 0, 2
    {
      hide Inv, Frame, QueryOk;
      LooseLive(cfg, P(), h);
      ghost var p0 := P();
      if queries[h].parent.Some? { ChildLeaf(cfg, p0, h); }
      CancelChildren(h);
      ghost var p1 := P();
      UdpOnlyShrinks(cfg, p0, p1, h);
      var q' := queries[h].(status := st);
      SetStatus(cfg, p1, h, q');
      queries := queries[h := q'];
      ghost var p2 := P();
      FrameThen(p0, p1, p2, h);
      QueryDone(h, false);
      FrameThen(p0, p2, P(), h);
    }

    /** adns__query_send over UDP: one more datagram, or failure after UDPMAXRETRIES. */
    method QuerySend(h: Handle, now: TimeVal)
      requires Busy({h}) && h in queries && Ready(queries[h]) && queries[h].id >= 0
      modifies `queries, `udpw, `childw, `output
      ensures Busy({}) && Frame(old(P()), P(), h)
      ensures h in udpw <==> old(queries[h]).retries < UDPMAXRETRIES
      ensures h in udpw ==> h in queries && queries[h] == Sent(cfg, old(queries[h]), now)
      ensures h !in udpw && old(queries[h]).parent.None? ==>
        h in queries && queries[h] == Finished(old(queries[h]), Timeout)
      ensures h in udpw ==> queries == old(queries)[h := Sent(cfg, old(queries[h]), now)]
      ensures h !in udpw && old(queries[h]).parent.Some? ==>
        var top := old(queries)[h].parent.value;
        var t := old(queries)[top];
        && top in old(queries) && top in queries && h !in queries
        && queries[top] == Called(t.(children := Without(t.children, h)), Timeout, false)
    {
      hide Inv, Frame, QueryOk, Called, Without;
      var q := queries[h];
      LooseNotQueued(cfg, P(), h);
      if q.retries >= UDPMAXRETRIES {
        QueryFail(h, Timeout);
        return;
      }
      SendStep(cfg, P(), h, now);
      queries, udpw := queries[h := Sent(cfg, q, now)], udpw + [h];
    }

    /** adns__search_next: the next name of the search, or NXDOMAIN after the last. */
    method SearchNext(h: Handle, now: TimeVal)
      requires Busy({h}) && h in queries && Ready(queries[h]) && queries[h].search.on
      modifies `queries, `udpw, `childw, `output, `nextid
      ensures Busy({}) && Frame(old(P()), P(), h)
      ensures old(queries[h]).parent.None? ==> h in queries && Advanced(old(queries[h]), queries[h])
      ensures |old(queries[h]).tried| <= |Plan(cfg, old(queries[h]).search)|
      ensures old(queries[h]).parent.None? ==> Walked(cfg, encode, old(queries[h]), queries[h], now)
      decreases Remaining(cfg, queries[h].search), 1
    {
      hide Inv, Frame, QueryOk, SearchOk, Plan, Walked, FirstFit, Asked;
      var q := queries[h];
      TriedPlan(cfg, P(), h);
      var s := q.search;
      var name, s' := s.name, s.(doneAbs := 1);
      if s.doneAbs < 0 {
      } else if s.pos >= |cfg.searchlist| {
        if s.doneAbs != 0 {
          SearchEnd(cfg, P(), h);
          QueryFail(h, NxDomain);
          if q.parent.None? { WalkEnds(cfg, encode, q, queries[h], now); }
          return;
        }
      } else {
        name, s' := s.name + "." + cfg.searchlist[s.pos], s.(pos := s.pos + 1);
      }
      var q' := q.(search := s', tried := q.tried + [name]);
      SearchStep(cfg, P(), h, q');
      ghost var p0 := P();
      queries := queries[h := q'];
      ghost var p1 := P();
      NextName(cfg, q, q');
      QuerySimple(h, name, now);
      FrameThen(p0, p1, P(), h);
      if q.parent.None? { WalkOn(cfg, encode, q, q', queries[h], now); }
    }

    /** query_simple: encode the name and send. */
    method QuerySimple(h: Handle, name: string, now: TimeVal)
      requires Busy({h}) && h in queries && Ready(queries[h])
      modifies `queries, `udpw, `childw, `output, `nextid
      ensures Busy({}) && Frame(old(P()), P(), h)
      ensures old(queries[h]).parent.None? ==> h in queries && old(queries[h]).tried <= queries[h].tried
      ensures var q := old(queries[h]);
        q.parent.None? && (encode(name) != TooLong || !q.search.on) ==>
          Asked(cfg, encode(name), q, queries[h], now) && queries[h].search == q.search
      ensures var q := old(queries[h]);
        q.parent.None? && encode(name) == TooLong && q.search.on ==>
          |q.tried| <= |Plan(cfg, q.search)| && Walked(cfg, encode, q, queries[h], now)
      decreases Remaining(cfg, queries[h].search), 2
    {
      hide Inv, Frame, QueryOk, SearchOk, Remaining, Plan, Walked, FirstFit;
      var id := nextid % 0x1_0000;
      nextid := nextid + 1;
      var enc := encode(name);
      if enc == TooLong && queries[h].search.on {
        SearchNext(h, now);
      } else if enc != Encodable {
        QueryFail(h, if enc == TooLong then DomainTooLong else OtherFailure(0));
      } else {
        var q' := queries[h].(id := id);
        SetIdStep(cfg, P(), h, q');
        ghost var p0 := P();
        queries := queries[h := q'];
        ghost var p1 := P();
        QuerySend(h, now);
        FrameThen(p0, p1, P(), h);
      }
    }

    /** adns__internal_submit from a record parser: a child query for `h`. */
    method SubmitChild(h: Handle, now: TimeVal)
      requires Busy({h}) && h in queries && queries[h].parent.None? && queries[h].kind != Flat
      modifies `queries, `udpw, `nextid, `nextHandle
      ensures Busy({h}) && Touched(old(P()), P(), h)
      ensures h in queries && queries[h] == old(queries[h]).(children := queries[h].children)
      ensures |queries[h].children| == |old(queries[h]).children| + 1 && nextHandle >= old(nextHandle)
    {
      hide Inv, QueryOk;
      var c, id := nextHandle, nextid % 0x1_0000;
      nextHandle, nextid := nextHandle + 1, nextid + 1;
      var q := Sent(cfg, NewQuery(Flat, Some(h)).(id := id), now);
      ChildStep(cfg, P(), h, c, q, id, now);
      queries := queries[c := q][h := queries[h].(children := queries[h].children + [c])];
      udpw := udpw + [c];
    }

    /** The label x_restartquery of adns__procdgram. */
    method RestartQuery(h: Handle, now: TimeVal)
      requires Busy({h}) && h in queries && Ready(queries[h])
      modifies `queries, `udpw, `childw, `output, `nextid
      ensures Busy({}) && Frame(old(P()), P(), h)
      ensures h in udpw && h in queries && Settled(cfg, encode, old(queries[h]), Restart, now, queries[h])
    {
      hide Inv, Frame, QueryOk;
      ghost var p1 := P();
      var q' := queries[h].(id := nextid % 0x1_0000, retries := 0, restarts := queries[h].restarts + 1);
      nextid := nextid + 1;
      RestartStep(cfg, p1, h, q');
      queries := queries[h := q'];
      ghost var p2 := P();
      QuerySend(h, now);
      FrameThen(p1, p2, P(), h);
    }

    /** The part of adns__procdgram after a reply that asks for no child queries. */
    method Settle(h: Handle, r: Reply, now: TimeVal)
      requires Busy({h}) && h in queries && Ready(queries[h]) && Possible(r)
      modifies `queries, `udpw, `childw, `output, `nextid
      ensures Busy({}) && Frame(old(P()), P(), h)
      ensures old(queries[h]).parent.None? ==> h in queries && Settled(cfg, encode, old(queries[h]), r, now, queries[h])
      ensures r.Restart? ==> h in udpw && h in queries && Settled(cfg, encode, old(queries[h]), r, now, queries[h])
      ensures old(queries[h]).parent.Some? && Finishes(old(queries[h]), r) ==>
        var q := old(queries[h]);
        var top := q.parent.value;
        && top in old(queries) && top in queries && h !in queries
        && ParentTold(q, r, h, old(queries)[top], queries[top])
    {
      hide Inv, Frame, QueryOk;
      match r {
        case Failure(st) => QueryFail(h, st);
        case NoSuchDomain =>
          if queries[h].search.on { SearchNext(h, now); } else { QueryFail(h, NxDomain); }
        case Empty => QueryFail(h, NoData);
        case Restart => RestartQuery(h, now);
        case Answer(kids, fails, matches) =>
          if fails.Some? { QueryFail(h, fails.value); } else { QueryDone(h, matches); }
      }
    }

    /** adns__procdgram for a datagram of server `serv` that answers query `h`. */
    method ProcDgram(h: Handle, serv: nat, r: Reply, now: TimeVal)
      requires Valid()
      requires Possible(r)
      modifies `queries, `udpw, `childw, `output, `nextid, `nextHandle
      ensures Valid()
      ensures !(h in old(udpw) && serv in old(queries[h]).udpsent) ==> P() == old(P())
      ensures h in old(udpw) ==> Touched(old(P()), P(), old(Root(P(), h)))
      ensures h in old(udpw) && serv in old(queries[h]).udpsent && old(queries[h]).parent.None? ==>
        h in queries &&
        var q := old(queries[h]);
        if !(r.Answer? && q.kind != Flat && r.kids > 0) then Settled(cfg, encode, q, r, now, queries[h])
        else if r.fails.Some? then queries[h] == Finished(q, r.fails.value)
        else
          && h in childw && |queries[h].children| == r.kids
          && queries[h] == q.(state := ChildW, children := queries[h].children)
      ensures h in old(udpw) && serv in old(queries[h]).udpsent && old(queries[h]).parent.Some? ==>
        var q := old(queries[h]);
        var top := q.parent.value;
        && q.kind == Flat
        && (r.Restart? ==> h in udpw && h in queries && Settled(cfg, encode, q, r, now, queries[h]))
        && (Finishes(q, r) ==>
              && top in old(queries) && top in queries && h !in queries
              && ParentTold(q, r, h, old(queries)[top], queries[top]))
    {
      hide Inv, Frame, QueryOk, Tops, Touched;
      UdpLive(cfg, P());
      ghost var p0 := P();
      if h !in udpw { return; }
      TouchedRefl(p0, h);
      if serv !in queries[h].udpsent { return; }
      ChildIsFlat(cfg, p0, h);
      TakeUdpStep(cfg, p0, h);
      udpw := Without(udpw, h);
      ghost var p1 := P();
      if r.Answer? && queries[h].kind != Flat && r.kids > 0 {
        FamilyTop(cfg, p1, h);
        AnswerWithChildren(h, r.kids, r.fails, now);
        TouchedAfterTake(p0, p1, P(), h);
        TouchedTops(p0, P(), h);
        return;
      }
      Settle(h, r, now);
      FrameTouched(p1, P(), h);
      TouchedAfterTake(p0, p1, P(), Root(p0, h));
      TouchedTops(p0, P(), Root(p0, h));
    }

    /** The part of adns__procdgram after records that asked for child queries. */
    method AnswerWithChildren(h: Handle, kids: nat, fails: Option<Status>, now: TimeVal)
      requires Busy({h}) && h in queries && queries[h].parent.None? && queries[h].kind != Flat && kids > 0
      requires Ready(queries[h]) && queries[h].id >= 0
      requires fails.Some? ==> fails.value != NxDomain
      modifies `queries, `udpw, `childw, `output, `nextid, `nextHandle
      ensures Busy({}) && Touched(old(P()), P(), h) && nextHandle >= old(nextHandle)
      ensures fails.None? ==>
        && h in childw && h in queries && |queries[h].children| == kids
        && queries[h] == old(queries[h]).(state := ChildW, children := queries[h].children)
      ensures fails.Some? ==> h in queries && queries[h] == Finished(old(queries[h]), fails.value)
    {
      hide Inv, Frame, QueryOk, Tops, Touched;
      ghost var p0 := P();
      ghost var q0 := queries[h];
      TouchedRefl(p0, h);
      var k := 0;
      while k < kids
        invariant 0 <= k <= kids && Busy({h}) && h in queries && Touched(p0, P(), h) && nextHandle >= old(nextHandle)
        invariant queries[h] == q0.(children := queries[h].children)
        invariant |queries[h].children| == k
      {
        ghost var p1 := P();
        SubmitChild(h, now);
        TouchedThen(p0, p1, P(), h);
        k := k + 1;
      }
      ghost var p2 := P();
      if fails.Some? {
        QueryFail(h, fails.value);
        FrameTouched(p2, P(), h);
        TouchedThen(p0, p2, P(), h);
      } else {
        var q' := queries[h].(state := ChildW);
        WaitStep(cfg, p2, h, q');
        queries, childw := queries[h := q'], childw + [h];
        TouchedThen(p0, p2, P(), h);
      }
    }

    /** The checks of adns_submit on the name, then the search or the single query. */
    method StartQuery(h: Handle, owner: string, search: bool, now: TimeVal)
      requires Busy({h}) && h in queries && Ready(queries[h]) && queries[h].tried == [] && !queries[h].search.on
      modifies `queries, `udpw, `childw, `output, `nextid
      ensures Busy({}) && Frame(old(P()), P(), h)
      ensures Unasked(old(queries[h])) ==> h in queries && Begun(cfg, encode, owner, search, queries[h])
    {
      hide Inv, Frame, QueryOk, Walked, Asked, SearchBegun, SingleBegun, Plan, FirstFit, NthName;
      CountDotsIs(owner);
      ghost var q0 := queries[h];
      if |owner| == 0 {
        QueryFail(h, OtherFailure(1));
        return;
      } else if |owner| > DNS_MAXDOMAIN + 1 {
        QueryFail(h, DomainTooLong);
        return;
      }
      var name, on := owner, search;
      if owner[|owner| - 1] == '.' && (|owner| < 2 || owner[|owner| - 2] != '\\') {
        on := false;
        name := owner[..|owner| - 1];
      }
      if on {
        var first := CountDots(owner) >= cfg.ndots;
        var q' := queries[h].(search := Search(true, name, first, 0, if first then -1 else 0));
        ghost var p1 := P();
        StartSearch(cfg, p1, h, q');
        queries := queries[h := q'];
        ghost var p2 := P();
        SearchNext(h, now);
        FrameThen(p1, p2, P(), h);
        if Unasked(q0) { SearchBegins(cfg, encode, owner, q', queries[h], now); }
      } else {
        QuerySimple(h, name, now);
        if Unasked(q0) { SingleBegins(cfg, encode(name), q0, queries[h], now); }
      }
    }

    /** adns_submit. The caller gets the handle in every case; a bad name is reported
        through the query. */
    method Submit(owner: string, kind: Kind, search: bool, now: TimeVal) returns (h: Handle)
      requires Valid()
      modifies this
      ensures Valid()
      ensures h !in old(submitted) && submitted == old(submitted) + {h} && h in queries
      ensures returned == old(returned) && cancelled == old(cancelled)
      ensures forall x <- old(queries) :: x in queries && queries[x] == old(queries[x])
      ensures forall x <- queries :: x in old(queries) || x == h
      ensures Begun(cfg, encode, owner, search, queries[h])
      ensures h in udpw <==> queries[h].state == ToSend
    {
      hide Inv, Frame, QueryOk, Tops, Begun;
      ghost var p0 := P();
      h := nextHandle;
      nextHandle := nextHandle + 1;
      NewStep(cfg, p0, h, kind);
      ParentsLive(cfg, p0, h);
      queries := queries[h := NewQuery(kind, None)];
      ghost var p1 := P();
      StartQuery(h, owner, search, now);
      FrameNew(p0, p1, P(), h, kind);
      OneQueue(cfg, P(), h);
      submitted := submitted + {h};
    }

    /** adns__internal_check: hand out a finished query, the given one or the oldest. */
    method InternalCheck(which: Option<Handle>) returns (r: Checked)
      requires Valid()
      requires which.Some? ==> which.value in Tops(P())
      modifies this
      ensures Valid() && submitted == old(submitted) && cancelled == old(cancelled)
      ensures !r.Returned? ==> P() == old(P()) && returned == old(returned)
      ensures r == NoQuery ==> which.None? && queries == map[]
      ensures which.Some? ==> (r == Again <==> old(queries[which.value].state != Done))
      ensures which.None? && r == Again ==> output == []
      ensures r.Returned? ==>
        && r.h in old(output) && r.status == old(queries[r.h]).status
        && returned == old(returned) + {r.h} && r.h !in old(returned) && queries == old(queries) - {r.h}
        && (if which.Some? then r.h == which.value else r.h == old(output)[0])
    {
      hide Inv, QueryOk;
      ghost var p0 := P();
      TopsState(cfg, p0);
      var h;
      if which.None? {
        if |output| > 0 {
          h := output[0];
        } else if |udpw| > 0 {
          return Again;
        } else {
          NothingLeft(cfg, p0);
          return NoQuery;
        }
      } else {
        h := which.value;
        if queries[h].id >= 0 { return Again; }
      }
      ReturnStep(cfg, p0, h);
      r := Returned(h, queries[h].status);
      output := Without(output, h);
      queries := queries - {h};
      returned := returned + {h};
    }

    /** The switch of adns_cancel: the query leaves the queue that its state names. */
    method UnlinkFromQueue(h: Handle)
      requires Busy({}) && h in queries
      modifies `udpw, `childw, `output
      ensures Busy({h}) && P() == Unlinked(old(P()), h)
    {
      hide Inv, Without;
      CancelUnlink(cfg, P(), h);
      if queries[h].state == ToSend {
        udpw := Without(udpw, h);
      } else if queries[h].state == ChildW {
        childw := Without(childw, h);
      } else {
        output := Without(output, h);
      }
    }

    /** adns_cancel by the caller: the query and its children are gone. */
    method Cancel(h: Handle)
      requires Valid() && h in Tops(P())
      modifies this
      ensures Valid() && submitted == old(submitted) && returned == old(returned)
      ensures cancelled == old(cancelled) + {h} && h !in old(cancelled)
      ensures forall x <- queries :: x in old(queries) && queries[x] == old(queries[x]) && x != h
      ensures forall x <- old(queries) :: x in queries <==> x != h && old(queries[x]).parent != Some(h)
    {
      hide Inv, Frame, QueryOk;
      ghost var p0 := P();
      UnlinkFromQueue(h);
      ghost var p1 := P();
      CancelChildren(h);
      ghost var p2 := P();
      CancelFrame(cfg, p0, p1, p2, h);
      queries := queries - {h};
      cancelled := cancelled + {h};
      CancelTops(p0, P(), h);
    }

    /** timeouts_queue on udpw with act set: every query whose time has passed is sent
        again or failed. The sweep goes back to the head after each, and ends because
        the queries whose time has passed get fewer. */
    method TimeoutsQueue(now: TimeVal)
      requires Valid() && Normal(now)
      modifies `queries, `udpw, `childw, `output
      ensures Valid() && Expired(P(), now) == {} && Swept(cfg, old(P()), P(), now)
    {
      hide Inv, Frame, QueryOk, Tops, SweepOk, Swept, SweptTops, Called, Dead;
      UdpLive(cfg, P());
      ghost var was := P();
      ghost var done: set<Handle> := {};
      SweepStart(cfg, was, now);
      TopsStart(cfg, was);
      var i := 0;
      while i < |udpw|
        invariant Valid() && 0 <= i <= |udpw|
        invariant forall x <- udpw :: x in queries
        invariant forall k :: 0 <= k < i ==> !Later(now, queries[udpw[k]].timeout)
        invariant SweepOk(cfg, was, P(), done, now) && SweptTops(was, P(), Dead(was, done))
        decreases Expired(P(), now), |udpw| - i
      {
        var h := udpw[i];
        if !Later(now, queries[h].timeout) {
          i := i + 1;
        } else {
          ghost var p0 := P();
          TakeUdpStep(cfg, p0, h);
          udpw := Without(udpw, h);
          ghost var p1 := P();
          QuerySend(h, now);
          SweepStep(cfg, p0, p1, P(), h, now);
          NotSwept(cfg, was, p0, done, h, now);
          SweepMore(cfg, was, p0, P(), done, h, now);
          TopsMore(cfg, was, p0, P(), done, h, now);
          done := done + {h};
          UdpLive(cfg, P());
          i := 0;
        }
      }
      NoneExpired(P(), now);
      SweepEnd(cfg, was, P(), done, now);
    }

    /** Any run: whatever is submitted, whatever replies come and whenever time passes,
        the queues stay consistent, and the queries handed out are different ones, all
        submitted before and none of them cancelled. */
    method Run(events: seq<Event>) returns (answers: seq<Handle>)
      requires Valid() && submitted == {}
      modifies this
      ensures Valid()
      ensures NoDup(answers) && (forall h :: h in answers <==> h in returned)
      ensures returned <= submitted - cancelled
    {
      answers := [];
      for k := 0 to |events|
        invariant Valid()
        invariant NoDup(answers) && (forall h :: h in answers <==> h in returned)
      {
        match events[k] {
          case Ask(owner, kind, search, now) => var h := Submit(owner, kind, search, now);
          case Datagram(h, serv, r, now) => if Possible(r) { ProcDgram(h, serv, r, now); }
          case Tick(now) => if Normal(now) { TimeoutsQueue(now); }
          case Collect(which) =>
            if which.None? || (which.value in queries && queries[which.value].parent.None?) {
              var r := InternalCheck(which);
              if r.Returned? {
                SnocNoDup(answers, r.h);
                answers := answers + [r.h];
              }
            }
          case GiveUp(h) => if h in queries && queries[h].parent.None? { Cancel(h); }
        }
      }
    }
  }
}
