/** The search trees of address ranges in src/dline_conf.c: insertion, search, and the
    deletion that drops unrelated nodes. */
module IpTrees {
  import opened IpPrefixes

  /** A configuration item: a range, the user name it is for, and its kind. */
  datatype Conf = Conf(ip: Ip, mask: Ip, user: string, exempt: bool, kill: bool, client: bool, tag: nat)

  datatype Tree = Leaf | Node(key: Key, conf: seq<Conf>, left: Tree, right: Tree)

  function Keys(t: Tree): set<Key> {
    if t.Leaf? then {} else {t.key} + Keys(t.left) + Keys(t.right)
  }

  /** The ranges of a tree with their items: what a linear scan would look at. */
  function Entries(t: Tree): (m: map<Key, seq<Conf>>)
    ensures m.Keys == Keys(t)
  {
    if t.Leaf? then map[] else (Entries(t.left) + Entries(t.right))[t.key := t.conf]
  }

  /** Ordered by address, with ranges apart from each other and no empty item list. */
  ghost predicate TreeOk(t: Tree) {
    t.Node? ==>
      && KeyOk(t.key) && t.conf != [] && TreeOk(t.left) && TreeOk(t.right)
      && (forall k <- Keys(t.left) :: Less(k.ip, t.key.ip) && Apart(k, t.key))
      && (forall k <- Keys(t.right) :: Less(t.key.ip, k.ip) && Apart(t.key, k))
  }

  lemma {:induction false} KeysOk(t: Tree)
    requires TreeOk(t)
    ensures forall k <- Keys(t) :: KeyOk(k)
  {
    hide KeyOk, Less, Apart;
    if t.Node? {
      KeysOk(t.left);
      KeysOk(t.right);
    }
  }

  lemma LeftApartRight(t: Tree, k: Key, l: Key)
    requires TreeOk(t) && t.Node? && k in Keys(t.left) && l in Keys(t.right)
    ensures Apart(k, l) && Apart(l, k) && k != l && Less(k.ip, l.ip)
  {
    hide Less, Apart, KeyOk;
    KeysOk(t);
    ApartAcross(k, t.key, l);
    ApartSwap(k, l);
    LessOrder(k.ip, t.key.ip, l.ip);
    LessTotal(k.ip, k.ip);
  }

  /** No address is in two ranges of a tree. */
  lemma Disjoint(t: Tree, k: Key, l: Key, a: Ip)
    requires TreeOk(t) && k in Keys(t) && l in Keys(t) && Covers(k, a) && Covers(l, a)
    ensures k == l
  {
    hide TreeOk, Keys, Covers, Apart;
    if k != l {
      AllApart(t, k, l);
      NotBoth(k, l, a);
    }
  }

  /** The ranges of a tree are apart from each other, wherever they are in it. */
  lemma {:induction false} AllApart(t: Tree, k: Key, l: Key)
    requires TreeOk(t) && k in Keys(t) && l in Keys(t) && k != l
    ensures Apart(k, l)
  {
    hide Less, Apart, KeyOk;
    if k in Keys(t.left) && l in Keys(t.left) { AllApart(t.left, k, l); }
    else if k in Keys(t.right) && l in Keys(t.right) { AllApart(t.right, k, l); }
    else if k in Keys(t.left) && l in Keys(t.right) { LeftApartRight(t, k, l); }
    else if k in Keys(t.right) && l in Keys(t.left) { LeftApartRight(t, l, k); }
    else { ApartSwap(k, l); }
  }

  lemma NodeKeysApart(t: Tree)
    requires TreeOk(t) && t.Node?
    ensures t.key !in Keys(t.left) && t.key !in Keys(t.right)
    ensures forall k <- Keys(t.left) :: k !in Keys(t.right)
  {
    hide Less, Apart, KeyOk;
    LessTotal(t.key.ip, t.key.ip);
    forall k | k in Keys(t.left) ensures k !in Keys(t.right) {
      if k in Keys(t.right) { LeftApartRight(t, k, k); }
    }
  }

  // ----- insertion -----

  /** insert_ip_subtree of a single node. */
  function Insert(t: Tree, key: Key, conf: seq<Conf>): Tree {
    if t.Leaf? then Node(key, conf, Leaf, Leaf)
    else if Less(key.ip, t.key.ip) then t.(left := Insert(t.left, key, conf))
    else t.(right := Insert(t.right, key, conf))
  }

  lemma {:induction false} InsertKeys(t: Tree, key: Key, conf: seq<Conf>)
    ensures Keys(Insert(t, key, conf)) == Keys(t) + {key}
  {
    hide Less;
    if t.Node? {
      InsertKeys(t.left, key, conf);
      InsertKeys(t.right, key, conf);
    }
  }

  /** Where an item list is found. */
  lemma EntriesAt(t: Tree, k: Key)
    requires TreeOk(t) && k in Keys(t)
    ensures k == t.key ==> Entries(t)[k] == t.conf
    ensures k in Keys(t.left) ==> k != t.key && Entries(t)[k] == Entries(t.left)[k]
    ensures k in Keys(t.right) ==> k != t.key && Entries(t)[k] == Entries(t.right)[k]
    ensures k == t.key || k in Keys(t.left) || k in Keys(t.right)
  {
    hide Less, Apart, KeyOk, TreeOk;
    NodeKeysApart(t);
  }

  lemma LeftChanged(t: Tree, l: Tree)
    requires TreeOk(t) && t.Node? && TreeOk(l) && forall k <- Keys(l) :: Less(k.ip, t.key.ip) && Apart(k, t.key)
    ensures TreeOk(t.(left := l))
  {
    hide Less, Apart, KeyOk;
  }

  lemma RightChanged(t: Tree, r: Tree)
    requires TreeOk(t) && t.Node? && TreeOk(r) && forall k <- Keys(r) :: Less(t.key.ip, k.ip) && Apart(t.key, k)
    ensures TreeOk(t.(right := r))
  {
    hide Less, Apart, KeyOk;
  }

  /** Where a range goes that is apart from the root. */
  lemma InsertSide(t: Tree, key: Key)
    requires TreeOk(t) && t.Node? && KeyOk(key) && forall k <- Keys(t) :: Apart(k, key)
    ensures Apart(t.key, key) && Apart(key, t.key) && (Less(key.ip, t.key.ip) || Less(t.key.ip, key.ip))
    ensures forall k <- Keys(t.left) :: Apart(k, key)
    ensures forall k <- Keys(t.right) :: Apart(k, key)
  {
    hide Less, Apart, KeyOk;
    assert t.key in Keys(t);
    ApartSwap(t.key, key);
    LessTotal(key.ip, t.key.ip);
    if key.ip == t.key.ip { SameStart(t.key, key); }
  }

  lemma {:induction false} InsertOk(t: Tree, key: Key, conf: seq<Conf>)
    requires TreeOk(t) && KeyOk(key) && conf != [] && forall k <- Keys(t) :: Apart(k, key)
    ensures TreeOk(Insert(t, key, conf))
  {
    hide Less, Apart, KeyOk;
    if t.Node? {
      InsertSide(t, key);
      if Less(key.ip, t.key.ip) {
        InsertOk(t.left, key, conf);
        InsertKeys(t.left, key, conf);
        LeftChanged(t, Insert(t.left, key, conf));
      } else {
        InsertOk(t.right, key, conf);
        InsertKeys(t.right, key, conf);
        RightChanged(t, Insert(t.right, key, conf));
      }
    }
  }

  /** The items of one range of a tree. */
  ghost predicate Has(t: Tree, k: Key, conf: seq<Conf>) { k in Keys(t) && Entries(t)[k] == conf }

  lemma HasIs(t: Tree, k: Key, conf: seq<Conf>)
    requires TreeOk(t)
    ensures Has(t, k, conf)
       <==> t.Node? && ((k == t.key && conf == t.conf) || Has(t.left, k, conf) || Has(t.right, k, conf))
  {
    hide Less, Apart, KeyOk, TreeOk, Entries;
    if t.Node? && (k in Keys(t)) { EntriesAt(t, k); }
  }

  lemma {:induction false} InsertHas(t: Tree, key: Key, conf: seq<Conf>, k: Key, c: seq<Conf>)
    requires TreeOk(t) && KeyOk(key) && conf != [] && forall k <- Keys(t) :: Apart(k, key)
    ensures Has(Insert(t, key, conf), k, c) <==> (k == key && c == conf) || Has(t, k, c)
    ensures key !in Keys(t)
  {
    hide Less, Apart, KeyOk, Has, Entries;
    var p := Insert(t, key, conf);
    if key in Keys(t) { SameStart(key, key); }
    InsertOk(t, key, conf);
    HasIs(t, k, c);
    HasIs(p, k, c);
    if t.Node? {
      InsertSide(t, key);
      if Less(key.ip, t.key.ip) { InsertHas(t.left, key, conf, k, c); } else { InsertHas(t.right, key, conf, k, c); }
    } else {
      HasIs(Leaf, k, c);
    }
  }

  // ----- search -----

  /** find_ip_subtree as a function. */
  function Find(t: Tree, a: Ip): Tree {
    if t.Leaf? || Covers(t.key, a) then t
    else if GoesLeft(t.key.ip, t.key.mask, a) then Find(t.left, a)
    else Find(t.right, a)
  }

  /** The search finds the range that holds the address, if there is one in the tree. */
  lemma {:induction false} FindIs(t: Tree, a: Ip)
    requires TreeOk(t)
    ensures var f := Find(t, a);
      && (f.Leaf? ==> forall k <- Keys(t) :: !Covers(k, a))
      && (f.Node? ==> f.key in Keys(t) && Covers(f.key, a) && Entries(t)[f.key] == f.conf && f.conf != [])
      && (f.Node? ==> forall k <- Keys(t) :: Covers(k, a) ==> k == f.key)
  {
    hide Less, Apart, KeyOk, Covers, GoesLeft;
    if t.Node? {
      NodeKeysApart(t);
      KeysOk(t);
      if Covers(t.key, a) {
        forall k | k in Keys(t) && Covers(k, a) ensures k == t.key {
          Disjoint(t, k, t.key, a);
        }
      } else if GoesLeft(t.key.ip, t.key.mask, a) {
        FindIs(t.left, a);
        forall r | r in Keys(t.right) ensures !Covers(r, a) { LeftOnly(t.key, r, a); }
      } else {
        FindIs(t.right, a);
        forall l | l in Keys(t.left) ensures !Covers(l, a) { RightOnly(t.key, l, a); }
      }
    }
  }

  /** find_ip_subtree: a loop down the tree. */
  method FindSubtree(head: Tree, a: Ip) returns (cur: Tree)
    ensures cur == Find(head, a)
  {
    hide Covers, GoesLeft;
    cur := head;
    while cur.Node?
      invariant Find(head, a) == Find(cur, a)
      decreases cur
    {
      if Covers(cur.key, a) { return; }
      if GoesLeft(cur.key.ip, cur.key.mask, a) { cur := cur.left; } else { cur := cur.right; }
    }
  }

  // ----- new items for a range that is there -----

  /** The tree with the items of the range that holds `a` replaced. */
  function Amend(t: Tree, a: Ip, conf: seq<Conf>): Tree {
    if t.Leaf? then t
    else if Covers(t.key, a) then t.(conf := conf)
    else if GoesLeft(t.key.ip, t.key.mask, a) then t.(left := Amend(t.left, a, conf))
    else t.(right := Amend(t.right, a, conf))
  }

  lemma {:induction false} AmendKeys(t: Tree, a: Ip, conf: seq<Conf>)
    ensures Keys(Amend(t, a, conf)) == Keys(t)
  {
    hide Covers, GoesLeft;
    if t.Node? {
      AmendKeys(t.left, a, conf);
      AmendKeys(t.right, a, conf);
    }
  }

  lemma {:induction false} AmendOk(t: Tree, a: Ip, conf: seq<Conf>)
    requires TreeOk(t) && conf != []
    ensures TreeOk(Amend(t, a, conf))
  {
    hide Less, Apart, KeyOk, Covers, GoesLeft;
    if t.Node? {
      if Covers(t.key, a) {
      } else if GoesLeft(t.key.ip, t.key.mask, a) {
        AmendOk(t.left, a, conf);
        AmendKeys(t.left, a, conf);
        LeftChanged(t, Amend(t.left, a, conf));
      } else {
        AmendOk(t.right, a, conf);
        AmendKeys(t.right, a, conf);
        RightChanged(t, Amend(t.right, a, conf));
      }
    }
  }

  lemma {:induction false} AmendHas(t: Tree, a: Ip, conf: seq<Conf>, k: Key, c: seq<Conf>)
    requires TreeOk(t) && conf != []
    ensures Has(Amend(t, a, conf), k, c)
       <==> if Find(t, a).Node? && k == Find(t, a).key then c == conf else Has(t, k, c)
  {
    hide Less, Apart, KeyOk, Covers, GoesLeft, Has, Entries;
    AmendOk(t, a, conf);
    HasIs(t, k, c);
    HasIs(Amend(t, a, conf), k, c);
    if t.Node? {
      HasKey(t.left, k, c);
      HasKey(t.right, k, c);
      NodeKeysApart(t);
      FindIs(t.left, a);
      FindIs(t.right, a);
      if Covers(t.key, a) {
      } else if GoesLeft(t.key.ip, t.key.mask, a) {
        AmendHas(t.left, a, conf, k, c);
      } else {
        AmendHas(t.right, a, conf, k, c);
      }
    }
  }

  lemma HasKey(t: Tree, k: Key, c: seq<Conf>)
    ensures Has(t, k, c) ==> k in Keys(t)
  {
    hide Entries;
  }

  // ----- deletion -----

  /** What delete_ip_subtree removes: a range inside `s`. */
  predicate InScope(s: Key, k: Key) { Matches(s.ip, s.mask, k.ip) && !Less(k.mask, s.mask) }

  /** The inorder predecessor of a node whose left subtree is `t`, with its left subtree. */
  function Rightmost(t: Tree): (r: Tree)
    requires t.Node?
    ensures r.Node? && r.right.Leaf?
  {
    if t.right.Leaf? then t else Rightmost(t.right)
  }

  function Leftmost(t: Tree): (r: Tree)
    requires t.Node?
    ensures r.Node? && r.left.Leaf?
  {
    if t.left.Leaf? then t else Leftmost(t.left)
  }

  /** What takes the place of a removed node. With two children the predecessor or the
      successor does, by the toss of a coin; it brings its other subtree along, and what
      lay between it and the removed node is no longer in the tree. */
  function Replace(l: Tree, r: Tree, coin: bool): Tree {
    if l.Leaf? then r
    else if r.Leaf? then l
    else if coin then WithRight(Rightmost(l), r)
    else WithLeft(Leftmost(r), l)
  }

  function WithRight(m: Tree, r: Tree): Tree
    requires m.Node?
  {
    m.(right := r)
  }

  function WithLeft(m: Tree, l: Tree): Tree
    requires m.Node?
  {
    m.(left := l)
  }

  datatype Deleted = Deleted(tree: Tree, clist: seq<Conf>)

  /** delete_ip_subtree; the coin may fall differently for each node. */
  function Delete(t: Tree, s: Key, clist: seq<Conf>, coin: Ip -> bool): Deleted {
    if t.Leaf? then Deleted(Leaf, clist)
    else
      var l := Delete(t.left, s, clist, coin);
      var r := Delete(t.right, s, l.clist, coin);
      if !InScope(s, t.key) then Deleted(t.(left := l.tree, right := r.tree), r.clist)
      else Deleted(Replace(l.tree, r.tree, coin(t.key.ip)), t.conf + r.clist)
  }

  /** The items of all ranges in scope. */
  function Gathered(t: Tree, s: Key): seq<Conf> {
    if t.Leaf? then []
    else (if InScope(s, t.key) then t.conf else []) + (Gathered(t.right, s) + Gathered(t.left, s))
  }

  /** The items of these ranges, one after the other. */
  function Lists(m: map<Key, seq<Conf>>, ks: seq<Key>): seq<Conf>
    requires forall k <- ks :: k in m
  {
    if ks == [] then [] else m[ks[0]] + Lists(m, ks[1..])
  }

  /** All ranges in scope, each once. */
  ghost predicate ScopeList(t: Tree, s: Key, ks: seq<Key>) {
    && (forall k :: k in ks <==> k in Keys(t) && InScope(s, k))
    && forall i, j :: 0 <= i < j < |ks| ==> ks[i] != ks[j]
  }

  lemma {:induction false} ListsConcat(m: map<Key, seq<Conf>>, a: seq<Key>, b: seq<Key>)
    requires forall k <- a + b :: k in m
    ensures (forall k <- a :: k in m) && (forall k <- b :: k in m) && Lists(m, a + b) == Lists(m, a) + Lists(m, b)
  {
    forall k | k in a || k in b ensures k in m { assert k in a + b; }
    if a == [] {
      assert a + b == b;
    } else {
      assert (a + b)[1..] == a[1..] + b;
      ListsConcat(m, a[1..], b);
    }
  }

  lemma {:induction false} ListsSame(m: map<Key, seq<Conf>>, m': map<Key, seq<Conf>>, ks: seq<Key>)
    requires forall k <- ks :: k in m && k in m' && m[k] == m'[k]
    ensures Lists(m, ks) == Lists(m', ks)
  {
    if ks != [] {
      assert forall k <- ks[1..] :: k in ks;
      ListsSame(m, m', ks[1..]);
    }
  }

  /** What is gathered are the lists of exactly the ranges in scope, each once and whole. */
  lemma {:induction false} GatheredIs(t: Tree, s: Key) returns (ks: seq<Key>)
    requires TreeOk(t)
    ensures ScopeList(t, s, ks) && Gathered(t, s) == Lists(Entries(t), ks)
  {
    hide InScope, Less, Apart, KeyOk, Entries;
    if t.Leaf? {
      ks := [];
    } else {
      var r := GatheredIs(t.right, s);
      var l := GatheredIs(t.left, s);
      var top := if InScope(s, t.key) then [t.key] else [];
      ks := top + (r + l);
      NodeScope(t, s, r, l, top);
      NodeLists(t, r, l);
      RootList(t);
      assert forall k <- ks :: k in Entries(t);
      hide Keys, TreeOk;
      ListsConcat(Entries(t), top, r + l);
    }
  }

  lemma NodeScope(t: Tree, s: Key, r: seq<Key>, l: seq<Key>, top: seq<Key>)
    requires TreeOk(t) && t.Node? && ScopeList(t.right, s, r) && ScopeList(t.left, s, l)
    requires top == if InScope(s, t.key) then [t.key] else []
    ensures ScopeList(t, s, top + (r + l))
  {
    hide InScope, TreeOk;
    NodeKeysApart(t);
    JoinOnce(r, l);
    JoinOnce(top, r + l);
  }

  lemma JoinOnce(a: seq<Key>, b: seq<Key>)
    requires (forall i, j :: 0 <= i < j < |a| ==> a[i] != a[j]) && (forall i, j :: 0 <= i < j < |b| ==> b[i] != b[j])
    requires forall k <- a :: k !in b
    ensures var c := a + b; forall i, j :: 0 <= i < j < |c| ==> c[i] != c[j]
  {
    var c := a + b;
    forall i, j | 0 <= i < j < |c| ensures c[i] != c[j] {
      if i < |a| <= j { assert c[i] in a && c[j] in b; }
    }
  }

  lemma NodeLists(t: Tree, r: seq<Key>, l: seq<Key>)
    requires TreeOk(t) && t.Node? && (forall k <- r :: k in Keys(t.right)) && (forall k <- l :: k in Keys(t.left))
    ensures (forall k <- r + l :: k in Entries(t))
    ensures Lists(Entries(t), r + l) == Lists(Entries(t.right), r) + Lists(Entries(t.left), l)
  {
    hide TreeOk, Entries;
    NodeKeysApart(t);
    forall k | k in r + l ensures k in Entries(t) { assert k in r || k in l; }
    forall k | k in r ensures Entries(t)[k] == Entries(t.right)[k] { EntriesAt(t, k); }
    forall k | k in l ensures Entries(t)[k] == Entries(t.left)[k] { EntriesAt(t, k); }
    ListsConcat(Entries(t), r, l);
    ListsSame(Entries(t), Entries(t.right), r);
    ListsSame(Entries(t), Entries(t.left), l);
  }

  lemma RootList(t: Tree)
    requires TreeOk(t) && t.Node?
    ensures t.key in Entries(t) && Lists(Entries(t), [t.key]) == t.conf
  {
    hide TreeOk, Entries;
    EntriesAt(t, t.key);
    assert [t.key][1..] == [];
    assert t.conf + [] == t.conf;
  }

  /** `t'` holds some of the ranges of `t`, with their items. */
  ghost predicate PartOf(t': Tree, t: Tree) {
    Keys(t') <= Keys(t) && forall k <- Keys(t') :: Entries(t')[k] == Entries(t)[k]
  }

  lemma {:induction false} RightmostOk(t: Tree)
    requires TreeOk(t) && t.Node?
    ensures TreeOk(Rightmost(t)) && Rightmost(t).key in Keys(t) && PartOf(Rightmost(t), t)
  {
    hide Less, Apart, KeyOk;
    NodeKeysApart(t);
    if t.right.Node? { RightmostOk(t.right); }
  }

  lemma {:induction false} LeftmostOk(t: Tree)
    requires TreeOk(t) && t.Node?
    ensures TreeOk(Leftmost(t)) && Leftmost(t).key in Keys(t) && PartOf(Leftmost(t), t)
  {
    hide Less, Apart, KeyOk;
    NodeKeysApart(t);
    if t.left.Node? { LeftmostOk(t.left); }
  }

  lemma ReplaceRight(t: Tree)
    requires TreeOk(t) && t.Node? && t.left.Node?
    ensures var p := WithRight(Rightmost(t.left), t.right); TreeOk(p) && PartOf(p, t) && t.key !in Keys(p)
  {
    hide Less, Apart, KeyOk, Rightmost;
    NodeKeysApart(t);
    RightmostOk(t.left);
    var m := Rightmost(t.left);
    forall k | k in Keys(t.right) ensures Less(m.key.ip, k.ip) && Apart(m.key, k) { LeftApartRight(t, m.key, k); }
    NodeKeysApart(m);
    forall k | k in Keys(m) ensures k !in Keys(t.right) { assert k in Keys(t.left); }
    var p := WithRight(m, t.right);
    assert Keys(p) == {m.key} + Keys(m.left) + Keys(t.right);
    forall k | k in Keys(p) ensures Entries(p)[k] == Entries(t)[k] {
      EntriesAt(p, k);
      EntriesAt(t, k);
      if k in Keys(m) { EntriesAt(m, k); }
    }
  }

  lemma ReplaceLeft(t: Tree)
    requires TreeOk(t) && t.Node? && t.right.Node?
    ensures var p := WithLeft(Leftmost(t.right), t.left); TreeOk(p) && PartOf(p, t) && t.key !in Keys(p)
  {
    hide Less, Apart, KeyOk, Leftmost;
    NodeKeysApart(t);
    LeftmostOk(t.right);
    var m := Leftmost(t.right);
    forall k | k in Keys(t.left) ensures Less(k.ip, m.key.ip) && Apart(k, m.key) { LeftApartRight(t, k, m.key); }
    NodeKeysApart(m);
    forall k | k in Keys(m) ensures k !in Keys(t.left) { assert k in Keys(t.right); }
    var p := WithLeft(m, t.left);
    assert Keys(p) == {m.key} + Keys(t.left) + Keys(m.right);
    forall k | k in Keys(p) ensures Entries(p)[k] == Entries(t)[k] {
      EntriesAt(p, k);
      EntriesAt(t, k);
      if k in Keys(m) { EntriesAt(m, k); }
    }
  }

  lemma ReplaceOk(t: Tree, coin: bool)
    requires TreeOk(t) && t.Node?
    ensures var p := Replace(t.left, t.right, coin); TreeOk(p) && PartOf(p, t) && t.key !in Keys(p)
  {
    hide Less, Apart, KeyOk;
    NodeKeysApart(t);
    if t.left.Node? && t.right.Node? {
      if coin { ReplaceRight(t); } else { ReplaceLeft(t); }
    }
  }

  lemma PartThen(a: Tree, b: Tree, c: Tree)
    requires PartOf(a, b) && PartOf(b, c)
    ensures PartOf(a, c)
  {
  }

  lemma NodeOfParts(t: Tree, l: Tree, r: Tree)
    requires TreeOk(t) && t.Node? && TreeOk(l) && TreeOk(r) && PartOf(l, t.left) && PartOf(r, t.right)
    ensures var p := t.(left := l, right := r); TreeOk(p) && PartOf(p, t)
  {
    hide Less, Apart, KeyOk;
    NodeKeysApart(t);
    var p := t.(left := l, right := r);
    assert TreeOk(p);
    assert Keys(p) == {t.key} + Keys(l) + Keys(r);
    hide Entries, Keys;
    forall k | k in Keys(p) ensures k in Keys(t) && Entries(p)[k] == Entries(t)[k] {
      PartKeyAt(t, l, r, k);
    }
  }

  lemma PartKeyAt(t: Tree, l: Tree, r: Tree, k: Key)
    requires TreeOk(t) && t.Node? && TreeOk(t.(left := l, right := r)) && PartOf(l, t.left) && PartOf(r, t.right)
    requires k in Keys(t.(left := l, right := r))
    ensures k in Keys(t) && Entries(t.(left := l, right := r))[k] == Entries(t)[k]
  {
    hide Less, Apart, KeyOk, TreeOk, Entries;
    EntriesAt(t.(left := l, right := r), k);
    EntriesAt(t, k);
  }

  /** Deletion keeps the tree in order, keeps the items of the ranges that stay, leaves no
      range in scope and hands over the items of exactly those. */
  lemma {:induction false} DeleteOk(t: Tree, s: Key, clist: seq<Conf>, coin: Ip -> bool)
    requires TreeOk(t)
    ensures var d := Delete(t, s, clist, coin);
      && TreeOk(d.tree) && PartOf(d.tree, t) && d.clist == Gathered(t, s) + clist
      && forall k <- Keys(d.tree) :: !InScope(s, k)
  {
    hide Less, Apart, KeyOk, InScope;
    if t.Node? {
      var l := Delete(t.left, s, clist, coin);
      var r := Delete(t.right, s, l.clist, coin);
      DeleteOk(t.left, s, clist, coin);
      DeleteOk(t.right, s, l.clist, coin);
      GatherJoin(t, s, clist);
      hide TreeOk, PartOf, Gathered;
      var p := t.(left := l.tree, right := r.tree);
      NodeOfParts(t, l.tree, r.tree);
      if InScope(s, t.key) {
        ReplaceOk(p, coin(t.key.ip));
        var q := Replace(p.left, p.right, coin(t.key.ip));
        PartThen(q, p, t);
        PartKeys(q, p);
      }
    }
  }

  lemma PartKeys(a: Tree, b: Tree)
    requires PartOf(a, b)
    ensures Keys(a) <= Keys(b)
  {
  }

  lemma GatherJoin(t: Tree, s: Key, clist: seq<Conf>)
    requires t.Node?
    ensures Gathered(t, s) + clist
         == (if InScope(s, t.key) then t.conf else []) + (Gathered(t.right, s) + (Gathered(t.left, s) + clist))
  {
    hide InScope;
    Join4(if InScope(s, t.key) then t.conf else [], Gathered(t.right, s), Gathered(t.left, s), clist);
  }

  lemma Join4(a: seq<Conf>, b: seq<Conf>, c: seq<Conf>, d: seq<Conf>)
    ensures a + (b + c) + d == a + (b + (c + d))
  {
  }

  /** After deletion the new range is apart from all that stay, unless one of them is
      broader and holds it. */
  lemma ScopeApart(t: Tree, s: Key, coin: Ip -> bool)
    requires TreeOk(t) && KeyOk(s)
    requires forall k <- Keys(t) :: Covers(k, s.ip) ==> Less(s.mask, k.mask)
    ensures forall k <- Keys(Delete(t, s, [], coin).tree) :: Apart(k, s)
  {
    hide Matches, PrefixMask, Meet, Shorter, Less;
    var d := Delete(t, s, [], coin);
    DeleteOk(t, s, [], coin);
    KeysOk(t);
    forall k | k in Keys(d.tree) ensures Apart(k, s) {
      if !Apart(k, s) {
        Overlap(k, s);
        ShorterIs(k.mask, s.mask);
        ShorterIs(s.mask, k.mask);
        LessTotal(k.mask, s.mask);
      }
    }
  }

  /** No unrelated range is dropped: wherever a removed node has two children, the node
      that takes its place is its own child. */
  predicate Lossless(t: Tree, s: Key, coin: Ip -> bool) {
    t.Node? ==>
      && Lossless(t.left, s, coin) && Lossless(t.right, s, coin)
      && (InScope(s, t.key) ==>
            var l, r := Delete(t.left, s, [], coin).tree, Delete(t.right, s, [], coin).tree;
            l.Node? && r.Node? ==> if coin(t.key.ip) then l.right.Leaf? else r.left.Leaf?)
  }

  lemma {:induction false} DeleteTree(t: Tree, s: Key, clist: seq<Conf>, coin: Ip -> bool)
    ensures Delete(t, s, clist, coin).tree == Delete(t, s, [], coin).tree
  {
    hide InScope;
    if t.Node? {
      var l := Delete(t.left, s, clist, coin);
      DeleteTree(t.left, s, clist, coin);
      DeleteTree(t.right, s, l.clist, coin);
      DeleteTree(t.right, s, Delete(t.left, s, [], coin).clist, coin);
    }
  }

  lemma {:induction false} RightmostWithin(t: Tree)
    requires t.Node?
    ensures Keys(Rightmost(t)) <= Keys(t)
  {
    if t.right.Node? { RightmostWithin(t.right); }
  }

  lemma {:induction false} LeftmostWithin(t: Tree)
    requires t.Node?
    ensures Keys(Leftmost(t)) <= Keys(t)
  {
    if t.left.Node? { LeftmostWithin(t.left); }
  }

  /** What a replacement loses: nothing, or at least the root of one of the subtrees. */
  lemma ReplaceLoses(t: Tree, coin: bool)
    requires TreeOk(t) && t.Node?
    ensures var l, r, p := t.left, t.right, Replace(t.left, t.right, coin);
      if l.Node? && r.Node? && !(if coin then l.right.Leaf? else r.left.Leaf?)
      then (if coin then l.key !in Keys(p) else r.key !in Keys(p))
      else Keys(p) == Keys(l) + Keys(r)
  {
    hide Less, Apart, KeyOk;
    NodeKeysApart(t);
    var l, r := t.left, t.right;
    if l.Node? && r.Node? {
      NodeKeysApart(l);
      NodeKeysApart(r);
      assert l.key in Keys(l) && r.key in Keys(r);
      if coin {
        if l.right.Node? { RightmostWithin(l.right); }
        assert Keys(WithRight(Rightmost(l), r)) <= Keys(Rightmost(l)) + Keys(r);
      } else {
        if r.left.Node? { LeftmostWithin(r.left); }
        assert Keys(WithLeft(Leftmost(r), l)) <= Keys(Leftmost(r)) + Keys(l);
      }
    }
  }

  /** Ranges that stay, seen from the two subtrees. */
  ghost predicate Keeps(t: Tree, s: Key, coin: Ip -> bool) {
    forall k <- Keys(t) :: !InScope(s, k) ==> k in Keys(Delete(t, s, [], coin).tree)
  }

  /** Deletion keeps all ranges that are not in scope exactly when it is lossless. */
  lemma {:induction false} LosslessExact(t: Tree, s: Key, coin: Ip -> bool)
    requires TreeOk(t)
    ensures Keeps(t, s, coin) <==> Lossless(t, s, coin)
  {
    hide Less, Apart, KeyOk, InScope, Delete;
    if t.Node? {
      LosslessExact(t.left, s, coin);
      LosslessExact(t.right, s, coin);
      DeleteOk(t.left, s, [], coin);
      DeleteOk(t.right, s, [], coin);
      var l, r := Delete(t.left, s, [], coin).tree, Delete(t.right, s, [], coin).tree;
      DeleteStep(t, s, coin);
      NodeOfParts(t, l, r);
      NodeKeysApart(t);
      var p := t.(left := l, right := r);
      ReplaceLoses(p, coin(t.key.ip));
      ReplaceOk(p, coin(t.key.ip));
      if Keeps(t, s, coin) {
        forall k | k in Keys(t.left) && !InScope(s, k) ensures k in Keys(l) { assert k in Keys(t); }
        forall k | k in Keys(t.right) && !InScope(s, k) ensures k in Keys(r) { assert k in Keys(t); }
        if l.Node? { assert l.key in Keys(l); }
        if r.Node? { assert r.key in Keys(r); }
      }
    }
  }

  lemma DeleteStep(t: Tree, s: Key, coin: Ip -> bool)
    requires t.Node?
    ensures var l, r := Delete(t.left, s, [], coin).tree, Delete(t.right, s, [], coin).tree;
      Delete(t, s, [], coin).tree
      == if InScope(s, t.key) then Replace(l, r, coin(t.key.ip)) else t.(left := l, right := r)
  {
    hide InScope, Replace;
    DeleteTree(t.right, s, Delete(t.left, s, [], coin).clist, coin);
  }

  /** Range `k` is out of scope and yet gone after the deletion. */
  ghost predicate Drops(t: Tree, s: Key, coin: Ip -> bool, k: Key) {
    TreeOk(t) && KeyOk(s) && k in Keys(t) && !InScope(s, k) && k !in Keys(Delete(t, s, [], coin).tree)
  }

  /** It is not always lossless: 10.0.0.0/25 disappears when 10.0.1.0/24 is added. */
  lemma DeletionDropsRange()
    ensures exists t, s, coin, k :: Drops(t, s, coin, k)
  {
    hide Delete, TreeOk, Lossless, Keys, InScope, KeyOk;
    var far := Node(Key(0x0a00_0000, 0xffff_ff80), [ANY],
                    Leaf, Node(Key(0x0a00_0080, 0xffff_ff80), [ANY], Leaf, Leaf));
    var t := Node(Key(0x0a00_0100, 0xffff_ff80), [ANY], far, Node(Key(0x0a00_0200, 0xffff_ff00), [ANY], Leaf, Leaf));
    var s := Key(0x0a00_0100, 0xffff_ff00);
    var coin := (a: Ip) => true;
    DropsOrdered(far, t);
    DropsDeleted(far, t, s, coin);
    LosslessExact(t, s, coin);
    var k :| k in Keys(t) && !InScope(s, k) && k !in Keys(Delete(t, s, [], coin).tree);
    assert Drops(t, s, coin, k);
  }

  const ANY := Conf(0, 0, "", false, false, false, 0)

  lemma DropsOrdered(far: Tree, t: Tree)
    requires far == Node(Key(0x0a00_0000, 0xffff_ff80), [ANY], Leaf,
        Node(Key(0x0a00_0080, 0xffff_ff80), [ANY], Leaf, Leaf))
    requires t == Node(Key(0x0a00_0100, 0xffff_ff80), [ANY], far,
        Node(Key(0x0a00_0200, 0xffff_ff00), [ANY], Leaf, Leaf))
    ensures TreeOk(t) && TreeOk(far)
  {
    assert Keys(far) == {far.key, far.right.key};
    assert Keys(t.right) == {t.right.key};
    assert Keys(far.right) == {far.right.key};
    assert TreeOk(Leaf);
    assert TreeOk(far.right) && TreeOk(t.right);
    assert TreeOk(far);
  }

  lemma DropsDeleted(far: Tree, t: Tree, s: Key, coin: Ip -> bool)
    requires far == Node(Key(0x0a00_0000, 0xffff_ff80), [ANY], Leaf,
        Node(Key(0x0a00_0080, 0xffff_ff80), [ANY], Leaf, Leaf))
    requires t == Node(Key(0x0a00_0100, 0xffff_ff80), [ANY], far,
        Node(Key(0x0a00_0200, 0xffff_ff00), [ANY], Leaf, Leaf))
    requires s == Key(0x0a00_0100, 0xffff_ff00) && coin(t.key.ip)
    ensures KeyOk(s) && !Lossless(t, s, coin)
  {
    assert InScope(s, t.key) && !InScope(s, far.key) && !InScope(s, far.right.key) && !InScope(s, t.right.key);
    hide InScope;
    DeleteStep(far.right, s, coin);
    DeleteStep(far, s, coin);
    DeleteStep(t.right, s, coin);
  }

  lemma ShorterIs(m: Ip, n: Ip)
    ensures Shorter(m, n) <==> !Less(n, m)
  {
  }
}
