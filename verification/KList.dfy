/**
 The intrusive circular doubly linked list of list.c, on the heap. A `Family` is a set of disjoint
 lists that share a pool of nodes; its ghost map gives each list head the sequence it stands for.
 */
module KList {
  import opened Basics

  /** The kernel's lists of this type. */
  datatype Place = FreeList | ReadyList | BlockedList(n: nat) | OwnList(t: nat)

  /** What a node is part of; `list_entry` recovers this from the address. */
  datatype Role = HeadFor(place: Place) | TaskAnchor(t: nat) | SemAnchor(n: nat)

  /** `struct list_head`. */
  class ListHead {
    var next: ListHead?
    var prev: ListHead?
    const role: Role

    constructor (role: Role)
      ensures this.role == role && next == null && prev == null
    {
      this.role := role;
      next, prev := null, null;
    }
  }

  /** Each list head with the members of its list, and each member with its head. */
  type Lists = map<ListHead, seq<ListHead>>
  type Homes = map<ListHead, ListHead>

  /** Consecutive nodes point at each other. */
  ghost predicate Linked(c: seq<ListHead>)
    reads c
  {
    forall i :: 0 <= i < |c| - 1 ==> c[i].next == c[i + 1] && c[i + 1].prev == c[i]
  }

  /** The list `q` with head `h`, once around. */
  ghost function Circle(h: ListHead, q: seq<ListHead>): (c: seq<ListHead>)
    ensures |c| == |q| + 2
  {
    [h] + q + [h]
  }

  // ---------------------------------------------------------------- one list

  lemma CircleAt(h: ListHead, q: seq<ListHead>, k: nat)
    requires k < |q|
    ensures Circle(h, q)[k + 1] == q[k]
  {
  }

  lemma CircleEnds(h: ListHead, q: seq<ListHead>)
    ensures Circle(h, q)[0] == h && Circle(h, q)[|q| + 1] == h && |Circle(h, q)| == |q| + 2
  {
  }

  lemma DistinctInsert(h: ListHead, q: seq<ListHead>, x: ListHead, k: nat)
    requires Distinct([h] + q) && x !in [h] + q && k <= |q|
    ensures Distinct([h] + (q[..k] + [x] + q[k..]))
    ensures forall y :: y in q[..k] + [x] + q[k..] <==> y in q || y == x
  {
    var a, b := [h] + q, [h] + (q[..k] + [x] + q[k..]);
    forall i, j | 0 <= i < j < |b|
      ensures b[i] != b[j]
    {
      var i', j' := if i <= k then i else i - 1, if j <= k then j else j - 1;
      assert i != k + 1 ==> b[i] == a[i'];
      assert j != k + 1 ==> b[j] == a[j'];
    }
    assert q == q[..k] + q[k..];
  }

  lemma DistinctRemove(h: ListHead, q: seq<ListHead>, k: nat)
    requires Distinct([h] + q) && k < |q|
    ensures Distinct([h] + (q[..k] + q[k + 1..]))
    ensures q[k] !in q[..k] + q[k + 1..] && q[k] != h
    ensures forall y :: y in q[..k] + q[k + 1..] <==> y in q && y != q[k]
  {
    var a, b := [h] + q, [h] + (q[..k] + q[k + 1..]);
    assert a[k + 1] == q[k] && a[0] == h;
    forall i | 0 <= i < |b|
      ensures b[i] == a[if i <= k then i else i + 1]
    {
    }
    assert q == q[..k] + [q[k]] + q[k + 1..];
    var r := q[..k] + q[k + 1..];
    forall i | 0 <= i < |r|
      ensures r[i] != q[k]
    {
      assert r[i] == b[i + 1];
    }
  }

  /** `__list_add`: `x` goes between two neighbours of the circle. */
  method Link(x: ListHead, before: ListHead, after: ListHead, ghost h: ListHead, ghost q: seq<ListHead>, ghost k: nat)
    requires Distinct([h] + q) && x !in [h] + q && Linked(Circle(h, q))
    requires k <= |q| && before == Circle(h, q)[k] && after == Circle(h, q)[k + 1]
    modifies x, before, after
    ensures Linked(Circle(h, q[..k] + [x] + q[k..]))
  {
    after.prev := x;
    x.next := after;
    x.prev := before;
    before.next := x;
    ghost var a, c, c' := [h] + q, Circle(h, q), Circle(h, q[..k] + [x] + q[k..]);
    assert c' == c[..k + 1] + [x] + c[k + 1..];
    forall i | 0 <= i < |c'| - 1
      ensures c'[i].next == c'[i + 1] && c'[i + 1].prev == c'[i]
    {
      if i < k {
        assert c'[i] == c[i] == a[i] && c'[i + 1] == c[i + 1];
      } else if i > k + 1 {
        assert c'[i] == c[i - 1] && c'[i + 1] == c[i];
      }
    }
  }

  /** `list_del`: the neighbours close up and the node's own pointers become null. */
  method Unlink(x: ListHead, ghost h: ListHead, ghost q: seq<ListHead>, ghost k: nat)
    requires Distinct([h] + q) && Linked(Circle(h, q)) && k < |q| && q[k] == x
    requires x.next != null && x.prev != null
    modifies x, x.next, x.prev
    ensures Linked(Circle(h, q[..k] + q[k + 1..])) && x.next == null && x.prev == null
  {
    ghost var a, c, c' := [h] + q, Circle(h, q), Circle(h, q[..k] + q[k + 1..]);
    assert c[k + 1] == x && c[k].next == c[k + 1] && c[k + 1].next == c[k + 2];
    assert c' == c[..k + 1] + c[k + 2..];
    x.next.prev := x.prev;
    x.prev.next := x.next;
    x.next := null;
    x.prev := null;
    forall i | 0 <= i < |c'| - 1
      ensures c'[i].next == c'[i + 1] && c'[i + 1].prev == c'[i]
    {
      if i < k {
        assert c'[i] == c[i] == a[i] && c'[i + 1] == c[i + 1];
      } else if i > k {
        assert c'[i] == c[i + 1] && c'[i + 1] == c[i + 2];
      } else {
        assert c'[i] == c[k] && c'[i + 1] == c[k + 2];
      }
    }
  }

  lemma Alone(h: ListHead)
    requires h.next == h && h.prev == h
    ensures Linked(Circle(h, []))
  {
    assert Circle(h, []) == [h, h];
  }

  // ---------------------------------------------------------------- many lists

  /** Which node is on which list: every member is at home on exactly one list, and heads are no members. */
  ghost predicate Registered(pool: set<ListHead>, seqs: Lists, home: Homes) {
    && seqs.Keys <= pool && home.Keys <= pool && seqs.Keys !! home.Keys
    && (forall h, x :: h in seqs && x in seqs[h] ==> x in home && home[x] == h)
    && (forall x :: x in home ==> home[x] in seqs && x in seqs[home[x]])
    && (forall h :: h in seqs ==> Distinct([h] + seqs[h]))
  }

  lemma RegisterList(pool: set<ListHead>, seqs: Lists, home: Homes,
    h: ListHead)
    requires Registered(pool, seqs, home) && h in pool && h !in home && (h in seqs ==> seqs[h] == [])
    ensures Registered(pool, seqs[h := []], home)
  {
  }

  lemma RegisterMember(pool: set<ListHead>, seqs: Lists, home: Homes,
    h: ListHead, x: ListHead, k: nat)
    requires Registered(pool, seqs, home) && h in seqs && x in pool && x !in home && x !in seqs && k <= |seqs[h]|
    ensures Registered(pool, seqs[h := seqs[h][..k] + [x] + seqs[h][k..]], home[x := h])
  {
    assert x !in seqs[h];
    DistinctInsert(h, seqs[h], x, k);
  }

  lemma DropMember(pool: set<ListHead>, seqs: Lists, home: Homes,
    h: ListHead, k: nat)
    requires Registered(pool, seqs, home) && h in seqs && k < |seqs[h]|
    ensures Registered(pool, seqs[h := seqs[h][..k] + seqs[h][k + 1..]], home - {seqs[h][k]})
  {
    var y, q := seqs[h][k], seqs[h][..k] + seqs[h][k + 1..];
    DistinctRemove(h, seqs[h], k);
    assert y in seqs[h] && home[y] == h;
    var seqs', home' := seqs[h := q], home - {y};
    assert seqs'.Keys == seqs.Keys;
    forall g, x | g in seqs' && x in seqs'[g]
      ensures x in home' && home'[x] == g
    {
      assert x in seqs[g];
    }
  }

  /** A node is on the circle of `g` only if it is `g` or at home there. */
  lemma Outside(pool: set<ListHead>, seqs: Lists, home: Homes, g: ListHead,
    x: ListHead)
    requires Registered(pool, seqs, home) && g in seqs && x != g && (x in home ==> home[x] != g)
    ensures x !in Circle(g, seqs[g]) && x !in [g] + seqs[g]
  {
  }

  lemma RegisteredFacts(pool: set<ListHead>, seqs: Lists, home: Homes)
    requires Registered(pool, seqs, home)
    ensures seqs.Keys <= pool && home.Keys <= pool && seqs.Keys !! home.Keys
  {
  }

  class Family {
    /** The heads in use, each with its members. */
    ghost var seqs: Lists
    /** The list each member is on. */
    ghost var home: Homes
    /** All nodes, linked or not. */
    ghost const pool: set<ListHead>

    ghost predicate Valid()
      reads this, pool
    {
      && Registered(pool, seqs, home)
      && (forall h :: h in seqs ==> Linked(Circle(h, seqs[h])))
      && (forall x :: x in pool && x !in seqs && x !in home ==> x.next == null && x.prev == null)
    }

    constructor (ghost nodes: set<ListHead>)
      requires forall x :: x in nodes ==> x.next == null && x.prev == null
      ensures Valid() && pool == nodes && seqs == map[] && home == map[]
    {
      pool := nodes;
      seqs, home := map[], map[];
    }

    /** `INIT_LIST_HEAD` on a node that is no list yet, or on an empty list. */
    method Init(h: ListHead)
      requires Valid() && h in pool && h !in home && (h in seqs ==> seqs[h] == [])
      modifies this, pool
      ensures Valid() && seqs == old(seqs)[h := []] && home == old(home)
    {
      hide Registered, Linked;
      RegisterList(pool, seqs, home, h);
      RegisteredFacts(pool, seqs, home);
      forall g | g in seqs && g != h
        ensures h !in Circle(g, seqs[g])
      {
        Outside(pool, seqs, home, g, h);
      }
      h.next := h;
      h.prev := h;
      seqs := seqs[h := []];
      assert Linked(Circle(h, [])) by {
        Alone(h);
      }
    }

    /** The neighbours of position `k` of list `h`, and that no other list sees them. */
    lemma Neighbours(h: ListHead, k: nat)
      requires Valid() && h in seqs && k <= |seqs[h]|
      ensures var a, b := Circle(h, seqs[h])[k], Circle(h, seqs[h])[k + 1];
        && a.next == b && b.prev == a
        && a in pool && b in pool && (a in seqs || a in home) && (b in seqs || b in home)
        && (forall g :: g in seqs && g != h ==> a !in Circle(g, seqs[g]) && b !in Circle(g, seqs[g]))
      ensures h.next == Circle(h, seqs[h])[1] && h.prev == Circle(h, seqs[h])[|seqs[h]|]
      ensures Distinct([h] + seqs[h])
    {
      var c := Circle(h, seqs[h]);
      assert c[0] == h && c[|seqs[h]| + 1] == h;
    }

    /** Insertion at position `k`, given the two neighbours. */
    method Insert(x: ListHead, before: ListHead, after: ListHead, h: ListHead, ghost k: nat)
      requires Valid() && h in seqs && x in pool && x !in home && x !in seqs && k <= |seqs[h]|
      requires before == Circle(h, seqs[h])[k] && after == Circle(h, seqs[h])[k + 1]
      modifies this, pool
      ensures Valid() && seqs == old(seqs)[h := old(seqs[h])[..k] + [x] + old(seqs[h])[k..]]
      ensures home == old(home)[x := h]
    {
      hide Registered, Linked, Distinct, Circle;
      Neighbours(h, k);
      RegisteredFacts(pool, seqs, home);
      RegisterMember(pool, seqs, home, h, x, k);
      forall g | g in seqs
        ensures x !in Circle(g, seqs[g]) && x !in [g] + seqs[g]
      {
        Outside(pool, seqs, home, g, x);
      }
      ghost var q := seqs[h][..k] + [x] + seqs[h][k..];
      Link(x, before, after, h, seqs[h], k);
      forall g | g in seqs && g != h
        ensures Linked(Circle(g, seqs[g]))
      {
        assert old(Linked(Circle(g, seqs[g])));
      }
      seqs := seqs[h := q];
      home := home[x := h];
    }

    /** `list_add`: the new first member. */
    method Add(x: ListHead, h: ListHead)
      requires Valid() && h in seqs && x in pool && x !in home && x !in seqs
      modifies this, pool
      ensures Valid() && seqs == old(seqs)[h := [x] + old(seqs[h])] && home == old(home)[x := h]
    {
      hide Valid, Circle, Distinct;
      Neighbours(h, 0);
      CircleEnds(h, seqs[h]);
      assert seqs[h][..0] + [x] + seqs[h][0..] == [x] + seqs[h];
      Insert(x, h, h.next, h, 0);
    }

    /** `list_add_tail`: the new last member. */
    method AddTail(x: ListHead, h: ListHead)
      requires Valid() && h in seqs && x in pool && x !in home && x !in seqs
      modifies this, pool
      ensures Valid() && seqs == old(seqs)[h := old(seqs[h]) + [x]] && home == old(home)[x := h]
    {
      hide Valid, Circle, Distinct;
      ghost var n := |seqs[h]|;
      Neighbours(h, n);
      CircleEnds(h, seqs[h]);
      assert seqs[h][..n] + [x] + seqs[h][n..] == seqs[h] + [x];
      Insert(x, h.prev, h, h, n);
    }

    /** `list_del` of member number `k` of list `h`. */
    method Del(x: ListHead, ghost h: ListHead, ghost k: nat)
      requires Valid() && h in seqs && k < |seqs[h]| && seqs[h][k] == x
      modifies this, pool
      ensures Valid() && seqs == old(seqs)[h := old(seqs[h])[..k] + old(seqs[h])[k + 1..]] && home == old(home) - {x}
      ensures x.next == null && x.prev == null
    {
      hide Registered, Linked, Distinct, Circle;
      Neighbours(h, k);
      Neighbours(h, k + 1);
      CircleAt(h, seqs[h], k);
      RegisteredFacts(pool, seqs, home);
      DropMember(pool, seqs, home, h, k);
      MemberHome(x, h);
      forall g | g in seqs && g != h
        ensures x !in Circle(g, seqs[g])
      {
        Outside(pool, seqs, home, g, x);
      }
      Unlink(x, h, seqs[h], k);
      forall g | g in seqs && g != h
        ensures Linked(Circle(g, seqs[g]))
      {
        assert old(Linked(Circle(g, seqs[g])));
      }
      seqs := seqs[h := seqs[h][..k] + seqs[h][k + 1..]];
      home := home - {x};
    }

    lemma MemberHome(x: ListHead, h: ListHead)
      requires Valid() && h in seqs && x in seqs[h]
      ensures x in home && home[x] == h && x !in seqs && x in pool
    {
    }

    /** `list_empty`. */
    method Empty(h: ListHead) returns (r: bool)
      requires Valid() && h in seqs
      ensures r == (seqs[h] == [])
    {
      Neighbours(h, 0);
      r := h.next == h;
      assert seqs[h] != [] ==> ([h] + seqs[h])[1] == seqs[h][0];
    }

    /** `list_first`; on an empty list the head itself, as in the source. */
    method First(h: ListHead) returns (x: ListHead)
      requires Valid() && h in seqs
      ensures x == if seqs[h] != [] then seqs[h][0] else h
    {
      Neighbours(h, 0);
      x := h.next;
    }

    /** Pointers are null exactly off the lists: the test at the head of `update_process_state`. */
    lemma LinkedIffHome(x: ListHead)
      requires Valid() && x in pool && x !in seqs
      ensures (x.next != null && x.prev != null) <==> x in home
    {
      if x in home {
        var h := home[x];
        var k :| 0 <= k < |seqs[h]| && seqs[h][k] == x;
        Neighbours(h, k);
        Neighbours(h, k + 1);
      }
    }

    /**
     `list_for_each_safe` with a body that moves each visited node to the tail of another list.
     The cursor is saved before the body unlinks the node, so every node is visited once, in order.
     */
    method MoveAll(src: ListHead, dst: ListHead)
      requires Valid() && src in seqs && dst in seqs && src != dst
      modifies this, pool
      ensures Valid() && seqs == old(seqs)[src := []][dst := old(seqs[dst]) + old(seqs[src])]
    {
      hide Valid;
      ghost var s0: Lists := seqs;
      ghost var q: seq<ListHead> := seqs[src];
      ghost var k := 0;
      var pos := First(src);
      NotHead(src);
      var aux := After(pos, src, 0);
      assert q[0..] == q && s0[dst] + q[..0] == s0[dst];
      while pos != src
        invariant Valid() && k <= |q| && src in seqs && dst in seqs
        invariant seqs[src] == q[k..] && seqs[dst] == s0[dst] + q[..k]
        invariant seqs == s0[src := q[k..]][dst := s0[dst] + q[..k]]
        invariant pos == if k < |q| then q[k] else src
        invariant k < |q| ==> aux == if k + 1 < |q| then q[k + 1] else src
        invariant src !in q
        decreases |q| - k
      {
        MoveFirst(pos, src, dst);
        assert q[k..][1..] == q[k + 1..];
        assert s0[dst] + q[..k] + [q[k]] == s0[dst] + q[..k + 1];
        pos := aux;
        k := k + 1;
        aux := After(pos, src, 0);
      }
      assert q[|q|..] == [] && q[..|q|] == q;
    }

    /** One round: the first node of `src` goes to the tail of `dst`. */
    method MoveFirst(pos: ListHead, src: ListHead, dst: ListHead)
      requires Valid() && src in seqs && dst in seqs && src != dst && seqs[src] != [] && pos == seqs[src][0]
      modifies this, pool
      ensures Valid() && seqs == old(seqs)[src := old(seqs[src])[1..]][dst := old(seqs[dst]) + [pos]]
    {
      hide Valid;
      MemberHome(pos, src);
      assert seqs[src][..0] + seqs[src][1..] == seqs[src][1..];
      Del(pos, src, 0);
      AddTail(pos, dst);
    }

    lemma NotHead(h: ListHead)
      requires Valid() && h in seqs
      ensures h !in seqs[h]
    {
    }

    /** The node after `pos`, which is the head of a list or its member number `k`. */
    method After(pos: ListHead, ghost h: ListHead, ghost k: nat) returns (r: ListHead)
      requires Valid() && h in seqs && (pos == h || (k < |seqs[h]| && pos == seqs[h][k]))
      ensures pos != h ==> r == if k + 1 < |seqs[h]| then seqs[h][k + 1] else h
    {
      if pos == h {
        Neighbours(h, 0);
      } else {
        Neighbours(h, k + 1);
        CircleAt(h, seqs[h], k);
        if k + 1 < |seqs[h]| {
          CircleAt(h, seqs[h], k + 1);
        }
        CircleEnds(h, seqs[h]);
      }
      CircleEnds(h, seqs[h]);
      r := pos.next;
    }
  }
}
