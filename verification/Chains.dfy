/** Lists without repetitions and what unlinking does to them. */
module Chains {

  predicate Unique<T(==,!new)>(s: seq<T>) { forall i, j :: 0 <= i < j < |s| ==> s[i] != s[j] }

  /** `s` without the elements of `dead`, in the same order. */
  function Outside<T(==,!new)>(s: seq<T>, dead: set<T>): (r: seq<T>)
    ensures |r| <= |s|
    ensures forall x :: x in r <==> x in s && x !in dead
  {
    if s == [] then []
    else
      assert s == [s[0]] + s[1..];
      (if s[0] in dead then [] else [s[0]]) + Outside(s[1..], dead)
  }

  lemma {:induction false} OutsideUnique<T(!new)>(s: seq<T>, dead: set<T>)
    requires Unique(s)
    ensures Unique(Outside(s, dead))
  {
    if s != [] {
      OutsideUnique(s[1..], dead);
      var r := Outside(s[1..], dead);
      assert s[0] !in s[1..];
      UniqueCons(s[0], r);
      assert [] + r == r;
    }
  }

  lemma UniqueCons<T(!new)>(x: T, s: seq<T>)
    requires Unique(s) && x !in s
    ensures Unique([x] + s) && Unique(s + [x])
  {
  }

  lemma {:induction false} OutsideTwice<T(!new)>(s: seq<T>, a: set<T>, b: set<T>)
    ensures Outside(Outside(s, a), b) == Outside(s, a + b)
  {
    if s != [] {
      OutsideTwice(s[1..], a, b);
      if s[0] !in a {
        var r := Outside(s[1..], a);
        assert ([s[0]] + r)[1..] == r;
      } else {
        assert [] + Outside(s[1..], a) == Outside(s[1..], a);
      }
    }
  }

  lemma {:induction false} OutsideNone<T(!new)>(s: seq<T>, dead: set<T>)
    requires forall x <- s :: x !in dead
    ensures Outside(s, dead) == s
  {
    if s != [] {
      OutsideNone(s[1..], dead);
      assert s == [s[0]] + s[1..];
    }
  }

  /** Only the elements of the list matter. */
  lemma {:induction false} OutsideSame<T(!new)>(s: seq<T>, a: set<T>, b: set<T>)
    requires forall x <- s :: x in a <==> x in b
    ensures Outside(s, a) == Outside(s, b)
  {
    if s != [] { OutsideSame(s[1..], a, b); }
  }

  /** The list with the first occurrence of `x` unlinked. */
  function Unlinked<T(==,!new)>(s: seq<T>, x: T): seq<T> {
    if s == [] then [] else if s[0] == x then s[1..] else [s[0]] + Unlinked(s[1..], x)
  }

  lemma {:induction false} UnlinkedIs<T(!new)>(s: seq<T>, x: T)
    requires Unique(s)
    ensures Unlinked(s, x) == Outside(s, {x})
    ensures |Unlinked(s, x)| == if x in s then |s| - 1 else |s|
  {
    if s != [] {
      UnlinkedIs(s[1..], x);
      assert s == [s[0]] + s[1..];
      if s[0] == x {
        OutsideNone(s[1..], {x});
        assert [] + s[1..] == s[1..];
      }
    }
  }

  lemma OutsideAll<T(!new)>(s: seq<T>, dead: set<T>)
    ensures Outside(s, dead) == [] <==> forall x <- s :: x in dead
  {
    var r := Outside(s, dead);
    if r != [] { assert r[0] in r; }
    if x :| x in s && x !in dead { assert x in r; }
  }

  /** `r` are the elements of `l` that are to be kept: those at the positions `at`, in their order, and no
      others. */
  ghost predicate Selects<T(!new)>(l: seq<T>, r: seq<T>, keep: T -> bool, at: seq<nat>) {
    && |at| == |r|
    && (forall i :: 0 <= i < |at| ==> at[i] < |l| && l[at[i]] == r[i] && keep(r[i]))
    && (forall i, j :: 0 <= i < j < |at| ==> at[i] < at[j])
    && forall p: nat :: p < |l| && keep(l[p]) ==> p in at
  }

  ghost predicate Selection<T(!new)>(l: seq<T>, r: seq<T>, keep: T -> bool) { exists at :: Selects(l, r, keep, at) }

  /** Every position one further on. */
  function Shifted(at: seq<nat>): (r: seq<nat>)
    ensures |r| == |at| && forall i :: 0 <= i < |at| ==> r[i] == at[i] + 1
  {
    seq(|at|, i requires 0 <= i < |at| => at[i] + 1)
  }

  /** All but perhaps the first element. */
  ghost predicate SelectsBehind<T(!new)>(l: seq<T>, r: seq<T>, keep: T -> bool, at: seq<nat>) {
    && |at| == |r|
    && (forall i :: 0 <= i < |at| ==> 0 < at[i] < |l| && l[at[i]] == r[i] && keep(r[i]))
    && (forall i, j :: 0 <= i < j < |at| ==> at[i] < at[j])
    && forall p: nat :: 0 < p < |l| && keep(l[p]) ==> p in at
  }

  lemma SelectShift<T(!new)>(x: T, l: seq<T>, r: seq<T>, keep: T -> bool, at: seq<nat>)
    requires Selects(l, r, keep, at)
    ensures SelectsBehind([x] + l, r, keep, Shifted(at))
    ensures !keep(x) ==> Selects([x] + l, r, keep, Shifted(at))
  {
    var m, at' := [x] + l, Shifted(at);
    forall p: nat | 0 < p < |m| && keep(m[p]) ensures p in at' {
      assert keep(l[p - 1]);
      var j :| 0 <= j < |at| && at[j] == p - 1;
      assert at'[j] == p;
    }
  }

  lemma SelectFirst<T(!new)>(x: T, l: seq<T>, r: seq<T>, keep: T -> bool, at: seq<nat>)
    requires SelectsBehind([x] + l, r, keep, at) && keep(x)
    ensures Selects([x] + l, [x] + r, keep, [0] + at)
  {
    var m, at' := [x] + l, [0 as nat] + at;
    forall p: nat | p < |m| && keep(m[p]) ensures p in at' {
      if p == 0 { assert at'[0] == 0; } else { assert p in at; }
    }
  }

  /** One more element in front. */
  lemma SelectCons<T(!new)>(x: T, l: seq<T>, r: seq<T>, keep: T -> bool)
    requires Selection(l, r, keep)
    ensures Selection([x] + l, (if keep(x) then [x] else []) + r, keep)
  {
    hide Selects, SelectsBehind;
    var at :| Selects(l, r, keep, at);
    SelectShift(x, l, r, keep, at);
    if keep(x) { SelectFirst(x, l, r, keep, Shifted(at)); } else { assert [] + r == r; }
  }

  lemma SelectedIs<T(!new)>(l: seq<T>, r: seq<T>, keep: T -> bool, e: T)
    requires Selection(l, r, keep)
    ensures e in r <==> e in l && keep(e)
  {
    var at :| Selects(l, r, keep, at);
    if e in r {
      var i :| 0 <= i < |r| && r[i] == e;
      assert l[at[i]] == e;
    }
    if e in l && keep(e) {
      var p :| 0 <= p < |l| && l[p] == e;
      var i :| 0 <= i < |at| && at[i] == p;
      assert r[i] == e;
    }
  }

  lemma SelectNone<T(!new)>(keep: T -> bool)
    ensures Selection([], [], keep)
  {
    assert Selects([], [], keep, []);
  }

  function NotAmong<T(==,!new)>(dead: set<T>): T -> bool { x => x !in dead }

  lemma {:induction false} OutsideSelects<T(!new)>(s: seq<T>, dead: set<T>)
    ensures Selection(s, Outside(s, dead), NotAmong(dead))
  {
    hide Selection;
    if s == [] {
      SelectNone(NotAmong(dead));
    } else {
      OutsideSelects(s[1..], dead);
      SelectCons(s[0], s[1..], Outside(s[1..], dead), NotAmong(dead));
      assert s == [s[0]] + s[1..];
    }
  }
}
