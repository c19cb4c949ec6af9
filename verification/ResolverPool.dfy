/** The queries of the adns resolver and its queues, as values: the consistency
    conditions of adns/check.c, and the single moves of a query from one queue to
    another. A query is named by a handle that stands for its address and is never
    reused. Only the UDP path is modelled, so there is no tcpw queue. */
module ResolverPool {
  import opened Text
  import opened TimeVals

  type Handle = nat

  const UDPMAXRETRIES := 15

  datatype State = ToSend | ChildW | Done

  /** What the answer of a query needs: nothing more, or addresses of the hosts it names
      (icb_hostaddr), or a check of the names it found (icb_ptr). */
  datatype Kind = Flat | HostAddr | Ptr

  datatype Status = Ok | Timeout | NxDomain | NoData | Inconsistent | DomainTooLong | OtherFailure(code: nat)

  /** The search fields. `name` is the domain asked for; `absFirst` is what the dots of
      the name chose at the start; doneAbs is 0 for not yet, 1 for done, -1 for first of
      all. Without adns_qf_search `on` is false. */
  datatype Search = Search(on: bool, name: string, absFirst: bool, pos: nat, doneAbs: int)

  /** One query. `tried`, `sent` and `restarts` record the names asked for, the datagrams
      sent and the restarts at a CNAME so far. */
  datatype Query = Query(
    state: State, kind: Kind, parent: Option<Handle>, children: seq<Handle>, id: int, status: Status,
    retries: nat, nextServer: nat, udpsent: set<nat>, timeout: TimeVal,
    search: Search, tried: seq<string>, sent: nat, restarts: nat)

  /** All queries, and the queues udpw, childw and output. */
  datatype Pool = Pool(qs: map<Handle, Query>, udpw: seq<Handle>, childw: seq<Handle>, output: seq<Handle>)

  /** What never changes: the number of servers and the search list. */
  datatype Config = Config(nservers: nat, searchlist: seq<string>, ndots: int)

  // ----- queues -----

  predicate NoDup(s: seq<Handle>) { forall i, j :: 0 <= i < j < |s| ==> s[i] != s[j] }

  /** DLIST_UNLINK. */
  function Without(s: seq<Handle>, x: Handle): seq<Handle> {
    if s == [] then [] else if s[0] == x then s[1..] else [s[0]] + Without(s[1..], x)
  }

  lemma {:induction false} WithoutIs(s: seq<Handle>, x: Handle)
    requires NoDup(s)
    ensures NoDup(Without(s, x))
    ensures forall y :: y in Without(s, x) <==> y in s && y != x
    ensures |Without(s, x)| == if x in s then |s| - 1 else |s|
  {
    if s != [] {
      assert NoDup(s[1..]);
      assert s == [s[0]] + s[1..];
      WithoutIs(s[1..], x);
      if s[0] != x {
        var r := Without(s[1..], x);
        assert s[0] !in s[1..];
        forall i, j | 0 <= i < j < |[s[0]] + r| ensures ([s[0]] + r)[i] != ([s[0]] + r)[j] {
          if i == 0 { assert r[j - 1] in r; }
        }
      } else {
        assert x !in s[1..];
      }
    }
  }

  // ----- the search list walk -----

  function WithEntries(name: string, list: seq<string>): (r: seq<string>)
    ensures |r| == |list| && forall i :: 0 <= i < |list| ==> r[i] == name + "." + list[i]
  {
    seq(|list|, i requires 0 <= i < |list| => name + "." + list[i])
  }

  /** The names of a search in the order they are tried. */
  function Plan(cfg: Config, s: Search): seq<string> {
    if s.absFirst then [s.name] + WithEntries(s.name, cfg.searchlist)
    else WithEntries(s.name, cfg.searchlist) + [s.name]
  }

  /** How far the walk has come. */
  function Steps(s: Search): nat { s.pos + if s.doneAbs == 1 then 1 else 0 }

  predicate SearchOk(cfg: Config, q: Query) {
    var s := q.search;
    s.on ==>
      && s.pos <= |cfg.searchlist|
      && (if s.absFirst then s.doneAbs == 1 || (s.doneAbs == -1 && s.pos == 0)
          else s.doneAbs == 0 || (s.doneAbs == 1 && s.pos == |cfg.searchlist|))
      && |q.tried| == Steps(s) <= |Plan(cfg, s)|
      && q.tried == Plan(cfg, s)[..|q.tried|]
      && (q.status == NxDomain ==> q.tried == Plan(cfg, s))
  }

  // ----- consistency -----

  /** checkc_query, and the datagram count. */
  predicate QueryOk(cfg: Config, q: Query) {
    && q.nextServer < cfg.nservers
    && (forall s <- q.udpsent :: s < cfg.nservers)
    && q.retries <= UDPMAXRETRIES
    && q.sent <= UDPMAXRETRIES * q.restarts + q.retries
    && SearchOk(cfg, q)
  }

  /** checkc_queue_udpw, checkc_queue_childw and checkc_queue_output for one member. */
  predicate UdpOk(q: Query) { q.state == ToSend && q.udpsent != {} && q.children == [] && q.id >= 0 && q.status == Ok }
  predicate ChildOk(q: Query) {
    q.state == ChildW && q.children != [] && q.id >= 0 && q.parent.None? && q.status == Ok
  }
  predicate OutOk(q: Query) { q.state == Done && q.children == [] && q.parent.None? && q.id < 0 }

  predicate QueueOk(s: seq<Handle>, qs: map<Handle, Query>, loose: set<Handle>, ok: Query -> bool) {
    NoDup(s) && forall h <- s :: h in qs && h !in loose && ok(qs[h])
  }

  /** Parents and children point at each other; a child has no children of its own,
      since only address queries are made for others. */
  ghost predicate FamilyOk(qs: map<Handle, Query>) {
    forall h <- qs ::
      && NoDup(qs[h].children)
      && (forall c <- qs[h].children :: c in qs && qs[c].parent == Some(h))
      && (qs[h].children != [] ==> qs[h].kind != Flat)
      && (qs[h].parent.Some? ==>
            var p := qs[h].parent.value;
            && p in qs && h in qs[p].children && qs[p].parent.None? && p != h
            && qs[h].children == [] && qs[h].state == ToSend && qs[h].kind == Flat)
  }

  /** Every query that is not being worked on is on the queue its state names. */
  predicate Queued(p: Pool, h: Handle)
    requires h in p.qs
  {
    match p.qs[h].state
    case ToSend => h in p.udpw
    case ChildW => h in p.childw
    case Done => h in p.output
  }

  /** adns__consistency, with the queries `loose` in the middle of being processed and so
      on no queue. */
  ghost predicate Inv(cfg: Config, p: Pool, loose: set<Handle>) {
    && QueueOk(p.udpw, p.qs, loose, UdpOk)
    && QueueOk(p.childw, p.qs, loose, ChildOk)
    && QueueOk(p.output, p.qs, loose, OutOk)
    && FamilyOk(p.qs)
    && (forall h <- p.qs :: QueryOk(cfg, p.qs[h]))
    && (forall h <- loose :: h in p.qs)
    && (forall h <- p.qs :: h !in loose ==> Queued(p, h))
  }

  /** A query is on at most one queue, and its id is negative exactly when it is done. */
  lemma OneQueue(cfg: Config, p: Pool, h: Handle)
    requires Inv(cfg, p, {}) && h in p.qs
    ensures h in p.udpw <==> p.qs[h].state == ToSend
    ensures h in p.childw <==> p.qs[h].state == ChildW
    ensures h in p.output <==> p.qs[h].state == Done
    ensures p.qs[h].id < 0 <==> p.qs[h].state == Done
    ensures p.qs[h].state == ChildW ==> p.qs[h].children != [] && p.qs[h].status == Ok && p.qs[h].parent.None?
    ensures forall c <- p.qs[h].children :: c in p.qs && p.qs[c].parent == Some(h) && p.qs[c].state != Done
  {
    assert Queued(p, h);
  }

  /** The names that a search has tried are the first ones of its plan; NXDOMAIN comes only
      after the whole plan; and no more datagrams than UDPMAXRETRIES are sent between
      two restarts. */
  lemma NamesTried(cfg: Config, p: Pool, loose: set<Handle>, h: Handle)
    requires Inv(cfg, p, loose) && h in p.qs
    ensures var q := p.qs[h];
      && (q.search.on ==> q.tried <= Plan(cfg, q.search) && (q.status == NxDomain ==> q.tried == Plan(cfg, q.search)))
      && q.sent <= UDPMAXRETRIES * (q.restarts + 1)
  {
    hide Plan, WithEntries;
    assert QueryOk(cfg, p.qs[h]);
  }

  /** A plan has no name twice unless the search list has an entry twice. */
  lemma PlanOnce(cfg: Config, s: Search, i: nat, j: nat)
    requires forall k, l :: 0 <= k < l < |cfg.searchlist| ==> cfg.searchlist[k] != cfg.searchlist[l]
    requires i < j < |Plan(cfg, s)|
    ensures Plan(cfg, s)[i] != Plan(cfg, s)[j]
    ensures multiset(Plan(cfg, s)) == multiset{s.name} + multiset(WithEntries(s.name, cfg.searchlist))
  {
    var es := WithEntries(s.name, cfg.searchlist);
    forall k | 0 <= k < |es| ensures |es[k]| > |s.name| { }
    forall k, l | 0 <= k < l < |es| ensures es[k] != es[l] { EntriesDiffer(s.name, cfg.searchlist, k, l); }
    hide WithEntries;
    OneMore(s.name, es);
  }

  lemma EntriesDiffer(name: string, list: seq<string>, k: nat, l: nat)
    requires k < |list| && l < |list| && list[k] != list[l]
    ensures WithEntries(name, list)[k] != WithEntries(name, list)[l]
  {
    EntryOf(name, list[k]);
    EntryOf(name, list[l]);
  }

  lemma OneMore(name: string, es: seq<string>)
    ensures multiset([name] + es) == multiset{name} + multiset(es) == multiset(es + [name])
  {
  }

  lemma EntryOf(name: string, entry: string)
    ensures (name + "." + entry)[|name| + 1..] == entry
  {
  }

  // ----- moves -----

  /** Taking a query off the queue udpw to work on it. */
  function TakeUdp(p: Pool, h: Handle): Pool { p.(udpw := Without(p.udpw, h)) }

  lemma TakeUdpKeeps(cfg: Config, p: Pool, h: Handle)
    requires Inv(cfg, p, {}) && h in p.udpw
    ensures Inv(cfg, TakeUdp(p, h), {h})
  {
    WithoutIs(p.udpw, h);
    var p' := TakeUdp(p, h);
    forall x | x in p.qs && x !in {h} ensures Queued(p', x) { assert Queued(p, x); }
  }

  lemma TakeChildwKeeps(cfg: Config, p: Pool, h: Handle)
    requires Inv(cfg, p, {}) && h in p.childw
    ensures Inv(cfg, p.(childw := Without(p.childw, h)), {h})
  {
    WithoutIs(p.childw, h);
    var p' := p.(childw := Without(p.childw, h));
    forall x | x in p.qs && x !in {h} ensures Queued(p', x) { assert Queued(p, x); }
  }

  lemma TakeOutputKeeps(cfg: Config, p: Pool, h: Handle)
    requires Inv(cfg, p, {}) && h in p.output
    ensures Inv(cfg, p.(output := Without(p.output, h)), {h})
  {
    WithoutIs(p.output, h);
    var p' := p.(output := Without(p.output, h));
    forall x | x in p.qs && x !in {h} ensures Queued(p', x) { assert Queued(p, x); }
  }

  lemma SnocNoDup(s: seq<Handle>, x: Handle)
    requires NoDup(s) && x !in s
    ensures NoDup(s + [x]) && forall y :: y in s + [x] <==> y in s || y == x
  {
  }

  /** A query that may be stored in place of `q`: same family, good fields. */
  predicate SameFamily(q: Query, q': Query) {
    q'.parent == q.parent && q'.children == q.children && q'.kind == q.kind
    && (q.parent.Some? ==> q'.state == ToSend)
  }

  lemma FamilyUpdate(qs: map<Handle, Query>, h: Handle, q': Query)
    requires FamilyOk(qs) && h in qs && SameFamily(qs[h], q')
    ensures FamilyOk(qs[h := q'])
  {
    var qs' := qs[h := q'];
    forall x | x in qs'
      ensures NoDup(qs'[x].children)
      ensures forall c <- qs'[x].children :: c in qs' && qs'[c].parent == Some(x)
      ensures qs'[x].children != [] ==> qs'[x].kind != Flat
      ensures qs'[x].parent.Some? ==>
            var p := qs'[x].parent.value;
            && p in qs' && x in qs'[p].children && qs'[p].parent.None? && p != x
            && qs'[x].children == [] && qs'[x].state == ToSend && qs'[x].kind == Flat
    {
      assert x in qs;
    }
  }

  /** Changing the fields of the query being processed. */
  lemma UpdateKeeps(cfg: Config, p: Pool, h: Handle, q': Query)
    requires Inv(cfg, p, {h}) && SameFamily(p.qs[h], q') && QueryOk(cfg, q')
    ensures Inv(cfg, p.(qs := p.qs[h := q']), {h})
  {
    hide FamilyOk, QueryOk, NoDup, UdpOk, ChildOk, OutOk;
    FamilyUpdate(p.qs, h, q');
    var p' := p.(qs := p.qs[h := q']);
    forall x | x in p'.qs && x !in {h} ensures Queued(p', x) { assert Queued(p, x); }
  }

  function PutUdp(p: Pool, h: Handle, q': Query): Pool { p.(qs := p.qs[h := q'], udpw := p.udpw + [h]) }

  lemma PutUdpKeeps(cfg: Config, p: Pool, h: Handle, q': Query)
    requires Inv(cfg, p, {h}) && SameFamily(p.qs[h], q') && QueryOk(cfg, q') && UdpOk(q')
    ensures Inv(cfg, PutUdp(p, h, q'), {})
  {
    FamilyUpdate(p.qs, h, q');
    SnocNoDup(p.udpw, h);
    var p' := PutUdp(p, h, q');
    forall x | x in p'.qs ensures Queued(p', x) { if x != h { assert Queued(p, x); } }
  }

  function PutChildw(p: Pool, h: Handle, q': Query): Pool { p.(qs := p.qs[h := q'], childw := p.childw + [h]) }

  lemma PutChildwKeeps(cfg: Config, p: Pool, h: Handle, q': Query)
    requires Inv(cfg, p, {h}) && SameFamily(p.qs[h], q') && QueryOk(cfg, q') && ChildOk(q')
    ensures Inv(cfg, PutChildw(p, h, q'), {})
  {
    FamilyUpdate(p.qs, h, q');
    SnocNoDup(p.childw, h);
    var p' := PutChildw(p, h, q');
    forall x | x in p'.qs ensures Queued(p', x) { if x != h { assert Queued(p, x); } }
  }

  function PutOutput(p: Pool, h: Handle, q': Query): Pool { p.(qs := p.qs[h := q'], output := p.output + [h]) }

  lemma PutOutputKeeps(cfg: Config, p: Pool, h: Handle, q': Query)
    requires Inv(cfg, p, {h}) && SameFamily(p.qs[h], q') && QueryOk(cfg, q') && OutOk(q')
    ensures Inv(cfg, PutOutput(p, h, q'), {})
  {
    FamilyUpdate(p.qs, h, q');
    SnocNoDup(p.output, h);
    var p' := PutOutput(p, h, q');
    forall x | x in p'.qs ensures Queued(p', x) { if x != h { assert Queued(p, x); } }
  }

  lemma DropFamily(qs: map<Handle, Query>, h: Handle)
    requires FamilyOk(qs) && h in qs && qs[h].parent.None? && qs[h].children == []
    ensures FamilyOk(qs - {h})
  {
    hide NoDup;
    var qs' := qs - {h};
    forall x | x in qs'
      ensures NoDup(qs'[x].children)
      ensures forall k <- qs'[x].children :: k in qs' && qs'[k].parent == Some(x)
      ensures qs'[x].children != [] ==> qs'[x].kind != Flat
      ensures qs'[x].parent.Some? ==>
            var p := qs'[x].parent.value;
            && p in qs' && x in qs'[p].children && qs'[p].parent.None? && p != x
            && qs'[x].children == [] && qs'[x].state == ToSend && qs'[x].kind == Flat
    {
      assert x in qs;
    }
  }

  /** Freeing the query being processed, which has no family. */
  lemma DropKeeps(cfg: Config, p: Pool, h: Handle)
    requires Inv(cfg, p, {h}) && p.qs[h].parent.None? && p.qs[h].children == []
    ensures Inv(cfg, p.(qs := p.qs - {h}), {})
  {
    hide FamilyOk, QueryOk, NoDup, UdpOk, ChildOk, OutOk;
    var p' := p.(qs := p.qs - {h});
    DropFamily(p.qs, h);
    forall x | x in p'.qs ensures Queued(p', x) { assert Queued(p, x); }
  }

  /** Freeing child `c` of `h`: it leaves its parent's list. */
  function DropChild(qs: map<Handle, Query>, h: Handle, c: Handle): map<Handle, Query>
    requires h in qs
  {
    (qs - {c})[h := qs[h].(children := Without(qs[h].children, c))]
  }

  lemma DropChildFamily(qs: map<Handle, Query>, h: Handle, c: Handle)
    requires FamilyOk(qs) && h in qs && c in qs[h].children
    ensures c in qs && c != h && FamilyOk(DropChild(qs, h, c))
  {
    assert qs[c].parent == Some(h);
    WithoutIs(qs[h].children, c);
    var qs' := DropChild(qs, h, c);
    forall x | x in qs'
      ensures NoDup(qs'[x].children)
      ensures forall k <- qs'[x].children :: k in qs' && qs'[k].parent == Some(x)
      ensures qs'[x].children != [] ==> qs'[x].kind != Flat
      ensures qs'[x].parent.Some? ==>
            var p := qs'[x].parent.value;
            && p in qs' && x in qs'[p].children && qs'[p].parent.None? && p != x
            && qs'[x].children == [] && qs'[x].state == ToSend && qs'[x].kind == Flat
    {
      assert x in qs;
      forall k | k in qs'[x].children ensures k in qs' && qs'[k].parent == Some(x) {
        assert k in qs[x].children && qs[k].parent == Some(x);
        if x != h { assert k != c; }
      }
    }
  }

  /** cancel_children, one child of the query being processed. */
  lemma CancelChildKeeps(cfg: Config, p: Pool, h: Handle, c: Handle)
    requires Inv(cfg, p, {h}) && c in p.qs[h].children
    ensures Inv(cfg, p.(qs := DropChild(p.qs, h, c), udpw := Without(p.udpw, c)), {h})
  {
    hide FamilyOk, NoDup, Without, UdpOk, QueryOk;
    ChildFacts(p.qs, h, c);
    DropChildFamily(p.qs, h, c);
    WithoutIs(p.udpw, c);
    FewerChildren(cfg, p.qs[h], Without(p.qs[h].children, c));
    var p' := p.(qs := DropChild(p.qs, h, c), udpw := Without(p.udpw, c));
    forall x | x in p'.qs && x !in {h} ensures Queued(p', x) { assert Queued(p, x); }
  }

  lemma ChildFacts(qs: map<Handle, Query>, h: Handle, c: Handle)
    requires FamilyOk(qs) && h in qs && c in qs[h].children
    ensures c in qs && c != h && qs[c].parent == Some(h) && qs[c].state == ToSend
  {
    hide NoDup;
  }

  lemma FewerChildren(cfg: Config, q: Query, children: seq<Handle>)
    requires QueryOk(cfg, q)
    ensures QueryOk(cfg, q.(children := children))
  {
  }

  /** A child that is finished leaves its parent, which comes off the queue childw. */
  lemma FinishChildKeeps(cfg: Config, p: Pool, h: Handle, c: Handle)
    requires Inv(cfg, p, {c}) && p.qs[c].parent == Some(h)
    ensures h in p.qs && c in p.qs[h].children && c != h
    ensures p.qs[h].state == ChildW && p.qs[h].kind != Flat && p.qs[h].id >= 0 && p.qs[h].parent.None?
    ensures p.qs[h].status == Ok
    ensures Inv(cfg, p.(qs := DropChild(p.qs, h, c), childw := Without(p.childw, h)), {h})
  {
    DropChildFamily(p.qs, h, c);
    WithoutIs(p.childw, h);
    assert Queued(p, h);
    var p' := p.(qs := DropChild(p.qs, h, c), childw := Without(p.childw, h));
    forall x | x in p'.qs ensures QueryOk(cfg, p'.qs[x]) { assert QueryOk(cfg, p.qs[x]); }
    forall x | x in p'.qs && x !in {h} ensures Queued(p', x) { assert Queued(p, x); }
  }

  /** A new top-level query, not on any queue yet. */
  lemma AddTopKeeps(cfg: Config, p: Pool, h: Handle, q: Query)
    requires Inv(cfg, p, {}) && h !in p.qs && QueryOk(cfg, q) && q.parent.None? && q.children == []
    ensures Inv(cfg, p.(qs := p.qs[h := q]), {h})
  {
    hide FamilyOk, QueryOk, NoDup, UdpOk, ChildOk, OutOk;
    var p' := p.(qs := p.qs[h := q]);
    AddTopFamily(p.qs, h, q);
    forall x | x in p'.qs && x !in {h} ensures Queued(p', x) { assert Queued(p, x); }
  }

  lemma AddTopFamily(qs: map<Handle, Query>, h: Handle, q: Query)
    requires FamilyOk(qs) && h !in qs && q.parent.None? && q.children == []
    ensures FamilyOk(qs[h := q])
  {
  }

  function AddChild(p: Pool, h: Handle, c: Handle, q: Query): Pool
    requires h in p.qs
  {
    p.(qs := p.qs[c := q][h := p.qs[h].(children := p.qs[h].children + [c])], udpw := p.udpw + [c])
  }

  /** A child query submitted for the query being processed. */
  lemma AddChildKeeps(cfg: Config, p: Pool, h: Handle, c: Handle, q: Query)
    requires Inv(cfg, p, {h}) && c !in p.qs && p.qs[h].parent.None? && p.qs[h].kind != Flat
    requires QueryOk(cfg, q) && UdpOk(q) && q.parent == Some(h) && q.kind == Flat
    ensures Inv(cfg, AddChild(p, h, c, q), {h})
  {
    var p' := AddChild(p, h, c, q);
    SnocNoDup(p.udpw, c);
    assert c !in p.qs[h].children;
    SnocNoDup(p.qs[h].children, c);
    AddChildFamily(p.qs, h, c, q);
    forall x | x in p'.qs ensures QueryOk(cfg, p'.qs[x]) { if x != c { assert QueryOk(cfg, p.qs[x]); } }
    forall x | x in p'.qs && x !in {h} ensures Queued(p', x) { if x != c { assert Queued(p, x); } }
  }

  lemma AddChildFamily(qs: map<Handle, Query>, h: Handle, c: Handle, q: Query)
    requires FamilyOk(qs) && h in qs && c !in qs && qs[h].parent.None? && qs[h].kind != Flat
    requires q.parent == Some(h) && q.kind == Flat && q.state == ToSend && q.children == []
    ensures FamilyOk(qs[c := q][h := qs[h].(children := qs[h].children + [c])])
  {
    var qs' := qs[c := q][h := qs[h].(children := qs[h].children + [c])];
    assert c !in qs[h].children;
    SnocNoDup(qs[h].children, c);
    forall x | x in qs'
      ensures NoDup(qs'[x].children)
      ensures forall k <- qs'[x].children :: k in qs' && qs'[k].parent == Some(x)
      ensures qs'[x].children != [] ==> qs'[x].kind != Flat
      ensures qs'[x].parent.Some? ==>
            var p := qs'[x].parent.value;
            && p in qs' && x in qs'[p].children && qs'[p].parent.None? && p != x
            && qs'[x].children == [] && qs'[x].state == ToSend && qs'[x].kind == Flat
    {
      if x != c {
        assert x in qs;
        forall k | k in qs'[x].children ensures k in qs' && qs'[k].parent == Some(x) {
          if k != c { assert k in qs[x].children && qs[k].parent == Some(x); }
        }
      }
    }
  }
}
