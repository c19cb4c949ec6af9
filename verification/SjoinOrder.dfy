/** doc/README.TSora claims that channel descriptions leave a server in the same state
    whatever order they arrive in. For descriptions without timestamp 0 this is so; with
    one among them, exactly when all the other timestamps are equal. */
module SjoinOrder {
  import opened Text
  import opened Channels
  import opened ChannelViews
  import opened SjoinBurst

  /** Entry `j` of description `i` names user `n`. */
  predicate Names(ds: seq<Desc>, i: int, j: int, n: string) {
    0 <= i < |ds| && 0 <= j < |ds[i].users| && ds[i].users[j].nick == n
  }

  /** Each user is named once: a user is on one server only. */
  ghost predicate Disjoint(ds: seq<Desc>) {
    forall i, j, i', j', n :: Names(ds, i, j, n) && Names(ds, i', j', n) ==> i == i' && j == j'
  }

  predicate LimitsOk(ds: seq<Desc>) { forall i :: 0 <= i < |ds| ==> ds[i].mode.limit >= 0 }

  /** Description `i` has timestamp `ts`. */
  predicate At(ds: seq<Desc>, i: int, ts: int) { 0 <= i < |ds| && ds[i].ts == ts }

  // The outcome of a set of descriptions, said without reference to any order.

  ghost predicate TsIs(ts: int, ds: seq<Desc>) {
    (exists i :: At(ds, i, ts)) && forall i :: 0 <= i < |ds| ==> ts <= ds[i].ts
  }

  ghost predicate FlagsAre(flags: set<Flag>, ts: int, ds: seq<Desc>) {
    forall f :: f in flags <==> exists i :: At(ds, i, ts) && f in ds[i].mode.flags
  }

  ghost predicate LimitIs(limit: int, ts: int, ds: seq<Desc>) {
    && (exists i :: At(ds, i, ts) && ds[i].mode.limit == limit)
    && forall i :: At(ds, i, ts) ==> ds[i].mode.limit <= limit
  }

  ghost predicate KeyIs(key: string, ts: int, ds: seq<Desc>) {
    && (exists i :: At(ds, i, ts) && ds[i].mode.key == key)
    && forall i :: At(ds, i, ts) ==> !StrLess(key, ds[i].mode.key)
  }

  ghost predicate StatusIs(st: map<string, Status>, ts: int, ds: seq<Desc>) {
    && (forall n <- st :: exists i, j :: Names(ds, i, j, n))
    && forall n, i, j :: Names(ds, i, j, n) ==>
         n in st && st[n] == Status(ds[i].ts == ts && ds[i].users[j].op, ds[i].ts == ts && ds[i].users[j].voice)
  }

  /** The least timestamp; flag union, greatest limit and strcmp-greatest key of the
      descriptions that have it; op and voice from those descriptions only. */
  ghost predicate Outcome(w: View, ds: seq<Desc>) {
    && TsIs(w.ts, ds) && FlagsAre(w.mode.flags, w.ts, ds)
    && LimitIs(w.mode.limit, w.ts, ds) && KeyIs(w.mode.key, w.ts, ds)
    && StatusIs(w.status, w.ts, ds)
  }

  // ----- one more description -----

  function Min(a: int, b: int): int { if a < b then a else b }

  lemma AtSnoc(ds: seq<Desc>, d: Desc)
    ensures forall i, ts :: At(ds + [d], i, ts) <==> At(ds, i, ts) || (i == |ds| && d.ts == ts)
  {
  }

  lemma TsStep(ts: int, ds: seq<Desc>, d: Desc)
    requires TsIs(ts, ds)
    ensures TsIs(Min(ts, d.ts), ds + [d])
  {
    AtSnoc(ds, d);
    var i :| At(ds, i, ts);
    assert At(ds + [d], i, ts);
    assert At(ds + [d], |ds|, d.ts);
  }

  lemma FlagsStep(flags: set<Flag>, ts: int, ds: seq<Desc>, d: Desc)
    requires TsIs(ts, ds) && FlagsAre(flags, ts, ds)
    ensures var fs := if d.ts == ts then d.mode.flags + flags else if d.ts < ts then d.mode.flags else flags;
      FlagsAre(fs, Min(ts, d.ts), ds + [d])
  {
    var fs := if d.ts == ts then d.mode.flags + flags else if d.ts < ts then d.mode.flags else flags;
    var t, all := Min(ts, d.ts), ds + [d];
    AtSnoc(ds, d);
    forall f ensures f in fs <==> exists i :: At(all, i, t) && f in all[i].mode.flags {
      if f in fs {
        if f in d.mode.flags && d.ts <= ts {
          assert At(all, |ds|, t) && f in all[|ds|].mode.flags;
        } else {
          var i :| At(ds, i, ts) && f in ds[i].mode.flags;
          assert At(all, i, t) && f in all[i].mode.flags;
        }
      }
      if i :| At(all, i, t) && f in all[i].mode.flags {
        if i < |ds| { assert At(ds, i, t) && f in ds[i].mode.flags; }
      }
    }
  }

  lemma LimitStep(limit: int, ts: int, ds: seq<Desc>, d: Desc)
    requires TsIs(ts, ds) && LimitIs(limit, ts, ds)
    ensures var l := if d.ts == ts then (if limit > d.mode.limit then limit else d.mode.limit)
                     else if d.ts < ts then d.mode.limit else limit;
      LimitIs(l, Min(ts, d.ts), ds + [d])
  {
    AtSnoc(ds, d);
    var i :| At(ds, i, ts) && ds[i].mode.limit == limit;
    assert (ds + [d])[i] == ds[i];
    assert At(ds + [d], |ds|, d.ts);
    assert At(ds + [d], i, ts);
  }

  lemma KeyStep(key: string, ts: int, ds: seq<Desc>, d: Desc)
    requires TsIs(ts, ds) && KeyIs(key, ts, ds)
    ensures var k := if d.ts == ts then StrMax(d.mode.key, key) else if d.ts < ts then d.mode.key else key;
      KeyIs(k, Min(ts, d.ts), ds + [d])
  {
    var k := if d.ts == ts then StrMax(d.mode.key, key) else if d.ts < ts then d.mode.key else key;
    AtSnoc(ds, d);
    var i :| At(ds, i, ts) && ds[i].mode.key == key;
    assert (ds + [d])[i] == ds[i];
    assert At(ds + [d], |ds|, d.ts);
    assert At(ds + [d], i, ts);
    StrTotal(d.mode.key, d.mode.key);
    StrTotal(d.mode.key, key);
    forall j | At(ds + [d], j, Min(ts, d.ts)) ensures !StrLess(k, (ds + [d])[j].mode.key) {
      if j < |ds| && d.ts == ts && StrLess(key, d.mode.key) && StrLess(d.mode.key, ds[j].mode.key) {
        StrTransitive(key, d.mode.key, ds[j].mode.key);
      }
    }
  }

  lemma NamesSnoc(ds: seq<Desc>, d: Desc)
    ensures forall i, j, n :: Names(ds + [d], i, j, n) <==>
              Names(ds, i, j, n) || (i == |ds| && 0 <= j < |d.users| && d.users[j].nick == n)
  {
  }

  lemma DisjointSnoc(ds: seq<Desc>, d: Desc)
    requires Disjoint(ds + [d])
    ensures Disjoint(ds) && UsersDistinct(d.users)
    ensures forall i, j, k :: 0 <= k < |d.users| ==> !Names(ds, i, j, d.users[k].nick)
  {
    NamesSnoc(ds, d);
    var all := ds + [d];
    forall i, j | 0 <= i < j < |d.users| ensures d.users[i].nick != d.users[j].nick {
      assert Names(all, |ds|, i, d.users[i].nick) && Names(all, |ds|, j, d.users[j].nick);
    }
    forall i, j, k | 0 <= k < |d.users| ensures !Names(ds, i, j, d.users[k].nick) {
      assert Names(all, |ds|, k, d.users[k].nick);
    }
  }

  lemma StatusStep(st: map<string, Status>, ts: int, ds: seq<Desc>, d: Desc)
    requires TsIs(ts, ds) && StatusIs(st, ts, ds) && Disjoint(ds + [d])
    ensures StatusIs(AddUsers(if d.ts < ts then Cleared(st) else st, d.users, d.ts <= ts), Min(ts, d.ts), ds + [d])
  {
    hide AddUsers;
    var base := if d.ts < ts then Cleared(st) else st;
    var t, all := Min(ts, d.ts), ds + [d];
    var st' := AddUsers(base, d.users, d.ts <= ts);
    NamesSnoc(ds, d);
    DisjointSnoc(ds, d);
    forall n | n in st' ensures exists i, j :: Names(all, i, j, n) {
      AddUsersAt(base, d.users, d.ts <= ts, n);
      if n in base {
        var i, j :| Names(ds, i, j, n);
        assert Names(all, i, j, n);
      } else {
        var k :| 0 <= k < |d.users| && d.users[k].nick == n;
        assert Names(all, |ds|, k, n);
      }
    }
    forall n, i, j | Names(all, i, j, n)
      ensures n in st'
      ensures st'[n] == Status(all[i].ts == t && all[i].users[j].op, all[i].ts == t && all[i].users[j].voice)
    {
      AddUsersAt(base, d.users, d.ts <= ts, n);
      if i < |ds| {
        assert Names(ds, i, j, n) && n in base;
      } else {
        assert n !in st;
        assert d.users[j].nick == n;
      }
    }
  }

  lemma OutcomeStep(w: View, ds: seq<Desc>, d: Desc)
    requires Outcome(w, ds) && Disjoint(ds + [d]) && w.ts != 0 && d.ts != 0
    ensures Outcome(Apply(Some(w), d), ds + [d])
  {
    hide AddUsers, FlagsAre, LimitIs, KeyIs, StatusIs, TsIs, Cleared, StrLess;
    TsStep(w.ts, ds, d);
    FlagsStep(w.mode.flags, w.ts, ds, d);
    LimitStep(w.mode.limit, w.ts, ds, d);
    KeyStep(w.mode.key, w.ts, ds, d);
    StatusStep(w.status, w.ts, ds, d);
  }

  lemma OutcomeFirst(d: Desc)
    requires Disjoint([d]) && d.mode.limit >= 0
    ensures Outcome(Apply(None, d), [d])
  {
    var w := Apply(None, d);
    StrMaxLaws(d.mode.key, "", "");
    StrTotal(d.mode.key, d.mode.key);
    assert d.mode.flags + {} == d.mode.flags;
    assert At([d], 0, d.ts);
    assert TsIs(w.ts, [d]) && FlagsAre(w.mode.flags, w.ts, [d]) && LimitIs(w.mode.limit, w.ts, [d]);
    assert KeyIs(w.mode.key, w.ts, [d]);
    assert [] + [d] == [d];
    DisjointSnoc([], d);
    NamesSnoc([], d);
    forall n | n in w.status ensures exists i, j :: Names([d], i, j, n) {
      AddUsersAt(map[], d.users, true, n);
      var k :| 0 <= k < |d.users| && d.users[k].nick == n;
      assert Names([d], 0, k, n);
    }
    forall n, i, j | Names([d], i, j, n)
      ensures n in w.status && w.status[n] == Status(d.users[j].op, d.users[j].voice)
    {
      AddUsersAt(map[], d.users, true, n);
    }
  }

  /** Whatever the order, the descriptions end in their outcome. */
  lemma {:induction false} FoldOutcome(ds: seq<Desc>)
    requires ds != [] && Disjoint(ds) && LimitsOk(ds) && forall i :: 0 <= i < |ds| ==> ds[i].ts != 0
    ensures ApplyAll(None, ds).Some? && Outcome(ApplyAll(None, ds).value, ds)
  {
    hide Outcome, Apply, Disjoint;
    var n := |ds| - 1;
    var init, d := ds[..n], ds[n];
    assert init + [d] == ds;
    if n == 0 {
      assert init == [];
      assert ds == [d];
      OutcomeFirst(d);
    } else {
      DisjointSnoc(init, d);
      FoldOutcome(init);
      var w := ApplyAll(None, init).value;
      OutcomeTs(w, init);
      OutcomeStep(w, init, d);
    }
  }

  lemma OutcomeTs(w: View, ds: seq<Desc>)
    requires Outcome(w, ds) && forall i :: 0 <= i < |ds| ==> ds[i].ts != 0
    ensures w.ts != 0
  {
  }

  // ----- the outcome depends on the set only -----

  ghost predicate SameSet(ds: seq<Desc>, es: seq<Desc>) { forall d :: d in ds <==> d in es }

  lemma AtOther(ds: seq<Desc>, es: seq<Desc>, i: int, ts: int) returns (k: int)
    requires SameSet(ds, es) && At(ds, i, ts)
    ensures At(es, k, ts) && es[k] == ds[i]
  {
    assert ds[i] in es;
    k :| 0 <= k < |es| && es[k] == ds[i];
  }

  lemma TsUnique(ts: int, ts': int, ds: seq<Desc>, es: seq<Desc>)
    requires TsIs(ts, ds) && TsIs(ts', es) && SameSet(ds, es)
    ensures ts == ts'
  {
    var i :| At(ds, i, ts);
    var k := AtOther(ds, es, i, ts);
    var i' :| At(es, i', ts');
    var k' := AtOther(es, ds, i', ts');
  }

  lemma FlagsUnique(a: set<Flag>, b: set<Flag>, ts: int, ds: seq<Desc>, es: seq<Desc>)
    requires FlagsAre(a, ts, ds) && FlagsAre(b, ts, es) && SameSet(ds, es)
    ensures a <= b
  {
    forall f | f in a ensures f in b {
      var i :| At(ds, i, ts) && f in ds[i].mode.flags;
      var k := AtOther(ds, es, i, ts);
      assert At(es, k, ts) && f in es[k].mode.flags;
    }
  }

  lemma LimitUnique(a: int, b: int, ts: int, ds: seq<Desc>, es: seq<Desc>)
    requires LimitIs(a, ts, ds) && LimitIs(b, ts, es) && SameSet(ds, es)
    ensures a <= b
  {
    var i :| At(ds, i, ts) && ds[i].mode.limit == a;
    var k := AtOther(ds, es, i, ts);
  }

  lemma KeyUnique(a: string, b: string, ts: int, ds: seq<Desc>, es: seq<Desc>)
    requires KeyIs(a, ts, ds) && KeyIs(b, ts, es) && SameSet(ds, es)
    ensures !StrLess(b, a)
  {
    var i :| At(ds, i, ts) && ds[i].mode.key == a;
    var k := AtOther(ds, es, i, ts);
  }

  lemma StatusUnique(a: map<string, Status>, b: map<string, Status>, ts: int, ds: seq<Desc>, es: seq<Desc>)
    requires StatusIs(a, ts, ds) && StatusIs(b, ts, es) && SameSet(ds, es)
    ensures forall n <- a :: n in b && b[n] == a[n]
  {
    forall n | n in a ensures n in b && b[n] == a[n] {
      var i, j :| Names(ds, i, j, n);
      var k := AtOther(ds, es, i, ds[i].ts);
      assert Names(es, k, j, n);
    }
  }

  lemma OutcomeUnique(w: View, w': View, ds: seq<Desc>, es: seq<Desc>)
    requires Outcome(w, ds) && Outcome(w', es) && SameSet(ds, es)
    ensures w == w'
  {
    hide FlagsAre, LimitIs, KeyIs, StatusIs, TsIs, StrLess;
    assert SameSet(es, ds);
    TsUnique(w.ts, w'.ts, ds, es);
    FlagsUnique(w.mode.flags, w'.mode.flags, w.ts, ds, es);
    FlagsUnique(w'.mode.flags, w.mode.flags, w.ts, es, ds);
    LimitUnique(w.mode.limit, w'.mode.limit, w.ts, ds, es);
    LimitUnique(w'.mode.limit, w.mode.limit, w.ts, es, ds);
    KeyUnique(w.mode.key, w'.mode.key, w.ts, ds, es);
    KeyUnique(w'.mode.key, w.mode.key, w.ts, es, ds);
    StrTotal(w.mode.key, w'.mode.key);
    StatusUnique(w.status, w'.status, w.ts, ds, es);
    StatusUnique(w'.status, w.status, w.ts, es, ds);
    assert w.status == w'.status;
  }

  lemma PermutedSet(ds: seq<Desc>, es: seq<Desc>)
    requires multiset(ds) == multiset(es)
    ensures SameSet(ds, es)
  {
    forall d ensures d in ds <==> d in es { assert d in multiset(ds) <==> d in multiset(es); }
  }

  lemma {:induction false} SecondIndex(s: seq<Desc>, i: nat) returns (j: int)
    requires i < |s| && multiset(s)[s[i]] >= 2
    ensures 0 <= j < |s| && j != i && s[j] == s[i]
  {
    var rest := s[..i] + s[i + 1..];
    assert s == s[..i] + [s[i]] + s[i + 1..];
    assert multiset(s) == multiset(rest) + multiset{s[i]};
    assert s[i] in rest;
    var k :| 0 <= k < |rest| && rest[k] == s[i];
    j := if k < i then k else k + 1;
  }

  lemma TwiceCounted(s: seq<Desc>, i: nat, j: nat)
    requires i < j < |s| && s[i] == s[j]
    ensures multiset(s)[s[i]] >= 2
  {
    assert s == s[..j] + s[j..];
    assert s[i] in s[..j] && s[i] in s[j..] by { assert s[..j][i] == s[i] && s[j..][0] == s[j]; }
  }

  lemma PermutedDisjoint(ds: seq<Desc>, es: seq<Desc>)
    requires multiset(ds) == multiset(es) && Disjoint(ds)
    ensures Disjoint(es)
  {
    PermutedSet(ds, es);
    forall i, j, i', j', n | Names(es, i, j, n) && Names(es, i', j', n) ensures i == i' && j == j' {
      var k := AtOther(es, ds, i, es[i].ts);
      var k' := AtOther(es, ds, i', es[i'].ts);
      assert Names(ds, k, j, n) && Names(ds, k', j', n);
      if i != i' {
        if i < i' { TwiceCounted(es, i, i'); } else { TwiceCounted(es, i', i); }
        var l := SecondIndex(ds, k);
        assert Names(ds, l, j, n);
      }
    }
  }

  lemma OrderIndependentSets(ds: seq<Desc>, es: seq<Desc>)
    requires SameSet(ds, es) && Disjoint(ds) && Disjoint(es) && LimitsOk(ds) && ds != [] && es != []
    requires forall i :: 0 <= i < |ds| ==> ds[i].ts != 0
    ensures ApplyAll(None, ds) == ApplyAll(None, es)
  {
    forall i | 0 <= i < |es| ensures es[i].ts != 0 && es[i].mode.limit >= 0 { assert es[i] in ds; }
    FoldOutcome(ds);
    FoldOutcome(es);
    OutcomeUnique(ApplyAll(None, ds).value, ApplyAll(None, es).value, ds, es);
  }

  /** Order independence: any two arrival orders of the same descriptions with nonzero
      timestamps and disjoint users end in the same view. */
  lemma OrderIndependent(ds: seq<Desc>, es: seq<Desc>)
    requires multiset(ds) == multiset(es) && Disjoint(ds) && LimitsOk(ds)
    requires forall i :: 0 <= i < |ds| ==> ds[i].ts != 0
    ensures ApplyAll(None, ds) == ApplyAll(None, es)
  {
    assert |ds| == |multiset(ds)| == |multiset(es)| == |es|;
    if ds != [] {
      PermutedSet(ds, es);
      PermutedDisjoint(ds, es);
      OrderIndependentSets(ds, es);
    }
  }

  // ----- timestamp 0 -----

  /** The condition on the timestamps: 0 only with one other value. */
  ghost predicate TsAllow(tss: seq<int>) {
    0 in tss ==> forall a, b :: a in tss && b in tss && a != 0 && b != 0 ==> a == b
  }

  function Timestamps(ds: seq<Desc>): (r: seq<int>)
    ensures |r| == |ds| && forall i :: 0 <= i < |ds| ==> r[i] == ds[i].ts
  {
    seq(|ds|, i requires 0 <= i < |ds| => ds[i].ts)
  }

  /** Each description has a user, as every line that a server sends has. */
  predicate Peopled(ds: seq<Desc>) { forall i :: 0 <= i < |ds| ==> ds[i].users != [] }

  /** All descriptions with these timestamps give the same view in every order: those with users, or
      `any` whatever. */
  ghost predicate AlwaysIndependent(tss: seq<int>, any: bool) {
    forall ds: seq<Desc>, es: seq<Desc> ::
      Timestamps(ds) == tss && Disjoint(ds) && LimitsOk(ds) && (any || Peopled(ds)) && multiset(ds) == multiset(es) ==>
        ApplyAll(None, ds) == ApplyAll(None, es)
  }

  function Retime(ds: seq<Desc>): (r: seq<Desc>)
    ensures |r| == |ds| && forall i :: 0 <= i < |ds| ==> r[i] == ds[i].(ts := 1)
  {
    seq(|ds|, i requires 0 <= i < |ds| => ds[i].(ts := 1))
  }

  /** With only 0 and `x` as timestamps everything is merged. */
  lemma {:induction false} MergeEverything(ds: seq<Desc>, x: int)
    requires ds != [] && x != 0 && forall i :: 0 <= i < |ds| ==> ds[i].ts == 0 || ds[i].ts == x
    ensures ApplyAll(None, ds).Some? && ApplyAll(None, Retime(ds)).Some?
    ensures ApplyAll(None, ds).value.(ts := 1) == ApplyAll(None, Retime(ds)).value
    ensures ApplyAll(None, ds).value.ts == if exists i :: 0 <= i < |ds| && ds[i].ts == 0 then 0 else x
  {
    hide AddUsers, StrLess;
    var n := |ds| - 1;
    var init, d := ds[..n], ds[n];
    assert Retime(ds)[..n] == Retime(init);
    if n == 0 {
      assert init == [] && Retime(init) == [];
      assert ds[0].ts == d.ts;
    } else {
      MergeEverything(init, x);
      var w := ApplyAll(None, init).value;
      assert ApplyAll(None, Retime(init)).value == w.(ts := 1);
      if i :| 0 <= i < |init| && init[i].ts == 0 { assert ds[i].ts == 0; }
      if i :| 0 <= i < |ds| && ds[i].ts == 0 && i < n { assert init[i].ts == 0; }
    }
  }

  lemma RetimeSet(ds: seq<Desc>, es: seq<Desc>)
    requires SameSet(ds, es)
    ensures SameSet(Retime(ds), Retime(es))
  {
    forall d ensures d in Retime(ds) <==> d in Retime(es) {
      if d in Retime(ds) {
        var i :| 0 <= i < |ds| && Retime(ds)[i] == d;
        var k := AtOther(ds, es, i, ds[i].ts);
        assert Retime(es)[k] == d;
      }
      if d in Retime(es) {
        var i :| 0 <= i < |es| && Retime(es)[i] == d;
        var k := AtOther(es, ds, i, es[i].ts);
        assert Retime(ds)[k] == d;
      }
    }
  }

  lemma RetimeDisjoint(ds: seq<Desc>)
    requires Disjoint(ds)
    ensures Disjoint(Retime(ds))
  {
    forall i, j, i', j', n | Names(Retime(ds), i, j, n) && Names(Retime(ds), i', j', n) ensures i == i' && j == j' {
      assert Names(ds, i, j, n) && Names(ds, i', j', n);
    }
  }

  lemma ZeroAllowed(ds: seq<Desc>, es: seq<Desc>)
    requires multiset(ds) == multiset(es) && Disjoint(ds) && LimitsOk(ds) && TsAllow(Timestamps(ds))
    requires exists i :: 0 <= i < |ds| && ds[i].ts == 0
    ensures ApplyAll(None, ds) == ApplyAll(None, es)
  {
    hide ApplyAll, Disjoint;
    assert |ds| == |multiset(ds)| == |multiset(es)| == |es|;
    var tss := Timestamps(ds);
    var z :| 0 <= z < |ds| && ds[z].ts == 0;
    assert tss[z] == 0;
    var x := OtherTs(tss);
    forall i | 0 <= i < |ds| ensures ds[i].ts == 0 || ds[i].ts == x { assert tss[i] in tss; }
    PermutedSet(ds, es);
    forall i | 0 <= i < |es| ensures es[i].ts == 0 || es[i].ts == x { assert es[i] in ds; }
    assert ds[z] in es;
    var z' :| 0 <= z' < |es| && es[z'] == ds[z];
    MergeEverything(ds, x);
    MergeEverything(es, x);
    RetimeSet(ds, es);
    RetimeDisjoint(ds);
    PermutedDisjoint(ds, es);
    RetimeDisjoint(es);
    OrderIndependentSets(Retime(ds), Retime(es));
    var w, w' := ApplyAll(None, ds).value, ApplyAll(None, es).value;
    assert w.(ts := 1) == w'.(ts := 1) && w.ts == 0 && w'.ts == 0;
    assert w == w.(ts := 1).(ts := 0) && w' == w'.(ts := 1).(ts := 0);
  }

  /** A value that all nonzero timestamps equal. */
  lemma OtherTs(tss: seq<int>) returns (x: int)
    requires TsAllow(tss) && 0 in tss
    ensures x != 0 && forall a :: a in tss && a != 0 ==> a == x
  {
    if a :| a in tss && a != 0 { x := a; } else { x := 1; }
  }

  lemma {:induction false} ApplyAllConcat(v: Option<View>, a: seq<Desc>, b: seq<Desc>)
    ensures ApplyAll(v, a + b) == ApplyAll(ApplyAll(v, a), b)
  {
    if b == [] {
      assert a + b == a;
    } else {
      ApplyAllConcat(v, a, b[..|b| - 1]);
      assert (a + b)[..|a + b| - 1] == a + b[..|b| - 1];
    }
  }

  /** A channel with timestamp 0 keeps it, and loses no mode any more. */
  lemma {:induction false} ZeroKeeps(w: View, ds: seq<Desc>, f: Flag)
    requires w.ts == 0 && f in w.mode.flags
    ensures var r := ApplyAll(Some(w), ds); r.Some? && r.value.ts == 0 && f in r.value.mode.flags
  {
    if ds != [] { ZeroKeeps(w, ds[..|ds| - 1], f); }
  }

  lemma {:induction false} NoFlagsAdded(w: View, ds: seq<Desc>)
    requires w.mode.flags == {} && forall i :: 0 <= i < |ds| ==> ds[i].mode.flags == {}
    ensures var r := ApplyAll(Some(w), ds); r.Some? && r.value.mode.flags == {}
  {
    if ds != [] { NoFlagsAdded(w, ds[..|ds| - 1]); }
  }

  lemma TakeOut(s: seq<Desc>, x: Desc) returns (r: seq<Desc>)
    requires x in s
    ensures multiset(s) == multiset(r) + multiset{x}
    ensures forall y :: y in r ==> y in s
  {
    var k :| 0 <= k < |s| && s[k] == x;
    r := s[..k] + s[k + 1..];
    assert s == s[..k] + [x] + s[k + 1..];
  }

  const MARKED_MODE := Mode({Moderated}, 0, "")

  /** The k-th of any number of different users. */
  function NthUser(k: nat): User { User(seq(k + 1, _ => 'u'), false, false) }

  /** Descriptions with a user each, one of which sets a mode. */
  function Probe(tss: seq<int>, ib: nat): (ds: seq<Desc>)
    requires ib < |tss|
    ensures |ds| == |tss| && Timestamps(ds) == tss
    ensures forall k :: 0 <= k < |tss| ==>
              ds[k] == Desc(tss[k], if k == ib then MARKED_MODE else NO_MODE, [NthUser(k)])
  {
    var ds := seq(|tss|, k requires 0 <= k < |tss| =>
                           Desc(tss[k], if k == ib then MARKED_MODE else NO_MODE, [NthUser(k)]));
    assert Timestamps(ds) == tss;
    ds
  }

  lemma ProbeDisjoint(tss: seq<int>, ib: nat)
    requires ib < |tss|
    ensures Disjoint(Probe(tss, ib)) && Peopled(Probe(tss, ib)) && LimitsOk(Probe(tss, ib))
  {
    var ds := Probe(tss, ib);
    forall i, j, i', j', n | Names(ds, i, j, n) && Names(ds, i', j', n) ensures i == i' && j == j' {
      assert |n| == i + 1 == i' + 1;
    }
  }

  lemma ProbeRest(ds: seq<Desc>, ib: nat, rest: seq<Desc>, others: multiset<Desc>)
    requires ib < |ds| && ds[ib].mode == MARKED_MODE
    requires forall k :: 0 <= k < |ds| && k != ib ==> ds[k].mode == NO_MODE
    requires multiset(ds) == multiset(rest) + others + multiset{ds[ib]}
    ensures forall i :: 0 <= i < |rest| ==> rest[i].mode.flags == {}
  {
    forall i | 0 <= i < |rest| ensures rest[i].mode.flags == {} {
      assert rest[i] in multiset(rest) && rest[i] in multiset(ds);
      var k :| 0 <= k < |ds| && ds[k] == rest[i];
      if k == ib {
        assert multiset(ds)[ds[ib]] >= 2;
        var l := SecondIndex(ds, ib);
      }
    }
  }

  /** Timestamp 0 beside two others: descriptions whose outcome depends on the order. */
  lemma ZeroBreaksOrder(tss: seq<int>, a: int, b: int, any: bool)
    requires 0 in tss && a in tss && b in tss && a < b && a != 0 && b != 0
    ensures !AlwaysIndependent(tss, any)
  {
    var ib :| 0 <= ib < |tss| && tss[ib] == b;
    var ia :| 0 <= ia < |tss| && tss[ia] == a;
    var iz :| 0 <= iz < |tss| && tss[iz] == 0;
    ZeroBreaks(tss, ib, ia, iz, any);
  }

  lemma ZeroBreaks(tss: seq<int>, ib: nat, ia: nat, iz: nat, any: bool)
    requires ib < |tss| && ia < |tss| && iz < |tss| && tss[iz] == 0 && tss[ia] < tss[ib] && tss[ia] != 0 && tss[ib] != 0
    ensures !AlwaysIndependent(tss, any)
  {
    var ds := Probe(tss, ib);
    ProbeDisjoint(tss, ib);
    var db, da, dz := ds[ib], ds[ia], ds[iz];
    hide AddUsers, ApplyAll, Probe, AlwaysIndependent, Disjoint, Peopled, LimitsOk;
    var rest := ThreeOut(ds, db, da, dz);
    ProbeRest(ds, ib, rest, multiset{dz} + multiset{da});
    LateOrder(db, da, dz, rest);
    EarlyOrder(db, da, dz, rest);
    Reordered(rest, db, da, dz);
    DependsOnOrder(tss, any, ds, [db, da, dz] + rest, [dz, db, da] + rest);
  }

  lemma DependsOnOrder(tss: seq<int>, any: bool, ds: seq<Desc>, es: seq<Desc>, fs: seq<Desc>)
    requires Timestamps(ds) == tss && Disjoint(ds) && LimitsOk(ds) && Peopled(ds)
    requires multiset(ds) == multiset(es) == multiset(fs) && ApplyAll(None, es) != ApplyAll(None, fs)
    ensures !AlwaysIndependent(tss, any)
  {
  }

  lemma OneAhead<T>(rest: seq<T>, x: T)
    ensures multiset([x] + rest) == multiset(rest) + multiset{x}
  {
  }

  lemma ThreeAhead<T>(rest: seq<T>, x: T, y: T, z: T)
    ensures multiset([x, y, z] + rest) == multiset(rest) + multiset{z} + multiset{y} + multiset{x}
  {
    var r1 := [z] + rest;
    var r2 := [y] + r1;
    assert [x, y, z] + rest == [x] + r2;
    OneAhead(rest, z);
    OneAhead(r1, y);
    OneAhead(r2, x);
  }

  lemma Reordered<T>(rest: seq<T>, x: T, y: T, z: T)
    ensures multiset([x, y, z] + rest) == multiset([z, x, y] + rest)
  {
    ThreeAhead(rest, x, y, z);
    ThreeAhead(rest, z, x, y);
  }

  lemma ThreeOut(ds: seq<Desc>, x: Desc, y: Desc, z: Desc) returns (rest: seq<Desc>)
    requires x in ds && y in ds && z in ds && x != y && y != z && x != z
    ensures multiset(ds) == multiset(rest) + (multiset{z} + multiset{y}) + multiset{x}
    ensures multiset(ds) == multiset([x, y, z] + rest)
  {
    var r1 := TakeOut(ds, x);
    assert y in multiset(r1) && z in multiset(r1) by { assert y in multiset(ds) && z in multiset(ds); }
    var r2 := TakeOut(r1, y);
    assert z in multiset(r2) by { assert z in multiset(r1); }
    rest := TakeOut(r2, z);
    ThreeAhead(rest, x, y, z);
  }

  lemma LateOrder(db: Desc, da: Desc, dz: Desc, rest: seq<Desc>)
    requires db.mode == MARKED_MODE && da.mode == NO_MODE && dz.mode == NO_MODE && dz.ts == 0
    requires da.ts < db.ts && da.ts != 0 && db.ts != 0
    requires forall i :: 0 <= i < |rest| ==> rest[i].mode.flags == {}
    ensures var r := ApplyAll(None, [db, da, dz] + rest); r.Some? && r.value.mode.flags == {}
  {
    hide AddUsers;
    ApplyAllConcat(None, [db, da, dz], rest);
    assert [db, da, dz][..2] == [db, da] && [db, da][..1] == [db] && [db][..0] == [];
    var w1 := Apply(None, db);
    var w2 := Apply(Some(w1), da);
    var w3 := Apply(Some(w2), dz);
    assert ApplyAll(None, [db]) == Some(w1);
    assert ApplyAll(None, [db, da]) == Some(w2);
    assert ApplyAll(None, [db, da, dz]) == Some(w3);
    NoFlagsAdded(w3, rest);
  }

  lemma EarlyOrder(db: Desc, da: Desc, dz: Desc, rest: seq<Desc>)
    requires db.mode == MARKED_MODE && dz.mode == NO_MODE && dz.ts == 0
    ensures var r := ApplyAll(None, [dz, db, da] + rest); r.Some? && Moderated in r.value.mode.flags
  {
    hide AddUsers;
    ApplyAllConcat(None, [dz, db], [da] + rest);
    assert [dz, db, da] + rest == [dz, db] + ([da] + rest);
    assert [dz, db][..1] == [dz] && [dz][..0] == [];
    var w1 := Apply(None, dz);
    var w2 := Apply(Some(w1), db);
    assert ApplyAll(None, [dz]) == Some(w1);
    assert ApplyAll(None, [dz, db]) == Some(w2);
    ZeroKeeps(w2, [da] + rest, Moderated);
  }

  /** The exact condition: descriptions with given timestamps are always independent of
      their order if and only if timestamp 0 comes with at most one other value. Whether all of them have
      users makes no difference. */
  lemma OrderIndependenceExact(tss: seq<int>, any: bool)
    ensures AlwaysIndependent(tss, any) <==> TsAllow(tss)
  {
    if TsAllow(tss) {
      forall ds: seq<Desc>, es: seq<Desc> | Timestamps(ds) == tss && Disjoint(ds) && LimitsOk(ds)
          && (any || Peopled(ds)) && multiset(ds) == multiset(es)
        ensures ApplyAll(None, ds) == ApplyAll(None, es)
      {
        if exists i :: 0 <= i < |ds| && ds[i].ts == 0 {
          ZeroAllowed(ds, es);
        } else {
          OrderIndependent(ds, es);
        }
      }
    } else {
      var a, b :| a in tss && b in tss && a != 0 && b != 0 && a != b;
      if a < b { ZeroBreaksOrder(tss, a, b, any); } else { ZeroBreaksOrder(tss, b, a, any); }
    }
  }
}
