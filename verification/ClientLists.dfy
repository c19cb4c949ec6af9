/** The doubly linked lists of the servers and users on a server (src/client.c), with
    their lnext and lprev pointers. */
module ClientLists {
  class Client {
    var lnext: Client?
    var lprev: Client?

    constructor ()
      ensures lnext == null && lprev == null
    {
      lnext, lprev := null, null;
    }
  }

  /** Element `i` of a list, or null beyond its ends. */
  function At(s: seq<Client>, i: int): Client? { if 0 <= i < |s| then s[i] else null }

  predicate Distinct(s: seq<Client>) { forall i, j :: 0 <= i < j < |s| ==> s[i] != s[j] }

  ghost predicate Chained(s: seq<Client>)
    reads s
  {
    && (forall i :: 0 <= i < |s| ==> s[i].lnext == At(s, i + 1))
    && (forall i :: 0 <= i < |s| ==> s[i].lprev == At(s, i - 1))
  }

  /** The list without element `k`. */
  function Drop(s: seq<Client>, k: nat): (r: seq<Client>)
    requires k < |s|
    ensures |r| == |s| - 1 && forall i :: 0 <= i < |r| ==> r[i] == s[if i < k then i else i + 1]
  {
    s[..k] + s[k + 1..]
  }

  /** A list head, with the clients on the list. */
  class Bucket {
    var head: Client?
    ghost var list: seq<Client>

    ghost predicate Valid()
      reads this, list
    {
      Distinct(list) && Chained(list) && head == At(list, 0)
    }

    constructor ()
      ensures Valid() && list == []
    {
      head, list := null, [];
    }

    /** add_client_to_llist, for a client that is on no such list. */
    method Add(c: Client)
      requires Valid() && c !in list && c.lnext == null && c.lprev == null
      modifies this, c, list
      ensures Valid() && list == [c] + old(list)
    {
      if c.lprev == null && c.lnext == null {
        c.lnext := head;
        if c.lnext != null { c.lnext.lprev := c; }
        head := c;
        ghost var was := list;
        list := [c] + list;
        assert forall i :: 0 < i < |list| ==> list[i] == was[i - 1];
      }
    }

    /** del_client_from_llist: the client leaves the list, the others keep their order. A
        client that is on no list, and whose pointers are null, changes nothing. */
    method Del(c: Client)
      requires Valid() && (c in list || (c.lnext == null && c.lprev == null))
      modifies this, c, list
      ensures Valid() && c.lnext == null && c.lprev == null
      ensures c !in old(list) ==> list == old(list)
      ensures forall i :: 0 <= i < |old(list)| && old(list)[i] == c ==> list == Drop(old(list), i)
    {
      ghost var was := list;
      ghost var k: int := if c in list then Index(list, c) else -2;
      Around(was, c, k);
      if c.lprev != null {
        c.lprev.lnext := c.lnext;
      } else if head == c {
        head := c.lnext;
      }
      if c.lnext != null { c.lnext.lprev := c.lprev; }
      c.lnext, c.lprev := null, null;
      if k >= 0 {
        assert Skips(was, k) by {
          forall i | 0 <= i < |was| && i != k ensures SkipsAt(was, k, i) { assert was[i] != c; }
        }
        Spliced(was, k);
        list := Drop(was, k);
      }
    }
  }

  /** What is known before a client is unlinked. */
  lemma Around(s: seq<Client>, c: Client, k: int)
    requires Distinct(s) && Chained(s) && (if c in s then 0 <= k < |s| && s[k] == c else k < -1)
    ensures c in s ==> c.lprev == At(s, k - 1) && c.lnext == At(s, k + 1)
    ensures c in s ==> c.lprev != c && c.lnext != c && (c.lprev != null ==> c.lprev != c.lnext)
    ensures forall i :: 0 <= i < |s| && s[i] == c ==> i == k
    ensures c in s ==> forall i :: 0 <= i < |s| ==> (s[i] == c.lprev ==> i == k - 1) && (s[i] == c.lnext ==> i == k + 1)
  {
  }

  ghost predicate SkipsAt(s: seq<Client>, k: int, i: int)
    requires 0 <= i < |s|
    reads s[i]
  {
    && s[i].lnext == At(s, if i == k - 1 then k + 1 else i + 1)
    && s[i].lprev == At(s, if i == k + 1 then k - 1 else i - 1)
  }

  /** The chain around element `k`. */
  ghost predicate Skips(s: seq<Client>, k: int)
    reads s
  {
    forall i :: 0 <= i < |s| && i != k ==> SkipsAt(s, k, i)
  }

  lemma Spliced(s: seq<Client>, k: nat)
    requires k < |s| && Distinct(s) && Skips(s, k)
    ensures Chained(Drop(s, k)) && Distinct(Drop(s, k))
    ensures At(Drop(s, k), 0) == if k == 0 then At(s, 1) else At(s, 0)
  {
    var r := Drop(s, k);
    forall i | 0 <= i < |r| ensures r[i].lnext == At(r, i + 1) && r[i].lprev == At(r, i - 1) {
      var j := if i < k then i else i + 1;
      assert r[i] == s[j] && SkipsAt(s, k, j);
    }
  }

  ghost function Index(s: seq<Client>, c: Client): (k: int)
    requires c in s
    ensures 0 <= k < |s| && s[k] == c
  {
    var k :| 0 <= k < |s| && s[k] == c;
    k
  }
}
