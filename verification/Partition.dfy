/** partition.c on its own heap: bucket chains, LRU list and byte budget, against the
    recency list of module Lru. */
module Partition {
  import opened Basics
  import opened Lru
  import opened Tailq
  import Elements
  import Placement

  const LRU_TAG := -1

  /** The recency list of entries that a list of links stands for. */
  function Entries(links: seq<Link>): seq<Entry<Elem>> {
    seq(|links|, i requires 0 <= i < |links| => Entry(links[i].elem.key, links[i].elem.size, links[i].elem))
  }

  lemma EntriesWithout(links: seq<Link>, i: nat)
    requires i < |links|
    ensures Entries(Without(links, i)) == Without(Entries(links), i)
    ensures Entries([links[i]] + Without(links, i)) == [Entries(links)[i]] + Without(Entries(links), i)
    ensures forall l :: l in Without(links, i) ==> l in links
  {
  }

  lemma EntriesPush(l: Link, links: seq<Link>)
    ensures Entries([l] + links) == [Entry(l.elem.key, l.elem.size, l.elem)] + Entries(links)
    ensures DistinctKeys(Entries(links)) && (forall x :: x in links ==> x.elem.key != l.elem.key) ==>
              DistinctKeys(Entries([l] + links))
  {
  }

  lemma WithoutMembers(links: seq<Link>, i: nat)
    requires i < |links| && forall j, k :: 0 <= j < k < |links| ==> links[j] != links[k]
    ensures forall l :: l in Without(links, i) <==> l in links && l != links[i]
  {
    forall l | l in links && l != links[i] ensures l in Without(links, i) {
      var j :| 0 <= j < |links| && links[j] == l;
      assert l == Without(links, i)[if j < i then j else j - 1];
    }
  }

  lemma TouchThenDrop(es: seq<Entry<Elem>>, key: nat)
    requires Find(es, key) < |es|
    ensures |Touch(es, key)| > 0 && Touch(es, key)[0] == es[Find(es, key)]
            && Without(Touch(es, key), 0) == Drop(es, key)
    ensures Total(es) == Total(Drop(es, key)) + es[Find(es, key)].size
  {
    TotalWithout(es, Find(es, key));
  }

  lemma LastOut(es: seq<Entry<Elem>>)
    requires es != []
    ensures Without(es, |es| - 1) == es[..|es| - 1]
    ensures Total(es) == Total(es[..|es| - 1]) + es[|es| - 1].size
  {
  }

  lemma FindIs(es: seq<Entry<Elem>>, key: nat, i: nat)
    requires DistinctKeys(es) && i < |es| && es[i].key == key
    ensures Find(es, key) == i
  {
  }

  /** The same entries, from the elements themselves. */
  function Records(es: seq<Elem>): seq<Entry<Elem>> {
    seq(|es|, i requires 0 <= i < |es| => Entry(es[i].key, es[i].size, es[i]))
  }

  lemma OneOut<T>(a: seq<T>, b: seq<T>, i: nat)
    requires Distinct(a) && Distinct(b) && |a| > 0 && i < |b| && b[i] == a[|a| - 1]
    requires forall x :: x in a <==> x in b
    ensures Distinct(a[..|a| - 1]) && Distinct(Without(b, i))
    ensures forall x :: x in a[..|a| - 1] <==> x in Without(b, i)
  {
    var init, rest := a[..|a| - 1], Without(b, i);
    forall x | x in init ensures x in rest {
      assert x in a;
      var j :| 0 <= j < |b| && b[j] == x;
      assert x == rest[if j < i then j else j - 1];
    }
    forall x | x in rest ensures x in init {
      var j :| 0 <= j < |rest| && rest[j] == x;
      assert x == b[if j < i then j else j + 1] && x in a;
    }
  }

  lemma MultisetWithout<T>(b: seq<T>, i: nat)
    requires i < |b|
    ensures multiset(b) == multiset(Without(b, i)) + multiset{b[i]}
  {
    assert b == b[..i] + [b[i]] + b[i + 1..];
  }

  lemma {:induction false} SameMembers(a: seq<Entry<Elem>>, b: seq<Entry<Elem>>)
    requires Distinct(a) && Distinct(b) && forall x :: x in a <==> x in b
    ensures multiset(a) == multiset(b) && Total(a) == Total(b)
    decreases |a|
  {
    assert b != [] ==> b[0] in b;
    if a != [] {
      var n := |a| - 1;
      var i := PositionOf(b, a[n]);
      OneOut(a, b, i);
      SameMembers(a[..n], Without(b, i));
      TotalWithout(b, i);
      MultisetWithout(b, i);
      MultisetWithout(a, n);
      assert Without(a, n) == a[..n];
    }
  }

  lemma PositionOf<T>(b: seq<T>, x: T) returns (i: nat)
    requires x in b
    ensures i < |b| && b[i] == x
  {
    i :| 0 <= i < |b| && b[i] == x;
  }

  lemma RecordsConcat(a: seq<Elem>, b: seq<Elem>)
    ensures Records(a + b) == Records(a) + Records(b)
  {
  }

  lemma EntriesConcat(a: seq<Link>, b: seq<Link>)
    ensures Entries(a + b) == Entries(a) + Entries(b)
    ensures Total(Entries(a + b)) == Total(Entries(a)) + Total(Entries(b))
  {
    assert Entries(a + b) == Entries(a) + Entries(b);
    TotalConcat(Entries(a), Entries(b));
  }

  lemma PushTotal(e: Entry<Elem>, es: seq<Entry<Elem>>)
    ensures Total([e] + es) == e.size + Total(es)
  {
    TotalAround([], e, es);
    assert [e] + ([] + es) == [e] + es && [] + es == es;
  }

  class Partition {
    const nhash: nat
    const maxSize: nat
    const table: seq<Queue>
    const lru: Queue
    var size: nat
    ghost var repr: set<object>

    ghost function View(): seq<Entry<Elem>>
      reads lru
    {
      Entries(lru.links)
    }

    ghost predicate LruOk()
      reads this`repr, repr
    {
      && lru in repr && lru.tag == LRU_TAG
      && (forall l :: l in lru.links ==> l in repr) && lru.Valid()
      && DistinctKeys(Entries(lru.links))
    }

    ghost predicate ChainOk(b: int)
      requires 0 <= b < |table|
      reads this`repr, repr
    {
      && table[b] in repr && table[b].tag == b
      && (forall l :: l in table[b].links ==> l in repr) && table[b].Valid()
    }

    /** An element of the LRU list is in the chain of its bucket. */
    ghost predicate Chained(l: Link)
      requires |table| == nhash > 0
      reads this`repr, repr
    {
      var e := l.elem;
      && e in repr && e.lru == l && e.chain != null && e.chain.elem == e
      && table[Placement.BucketOf(e.key, nhash)] in repr && e.chain in table[Placement.BucketOf(e.key, nhash)].links
    }

    /** An element of chain b belongs there and is in the LRU list. */
    ghost predicate Listed(b: int, l: Link)
      requires nhash > 0
      reads this`repr, repr
    {
      var e := l.elem;
      && e in repr && e.chain == l && Placement.BucketOf(e.key, nhash) == b && e.lru != null && e.lru.elem == e
      && lru in repr && e.lru in lru.links
    }

    ghost predicate Members(b: int)
      requires 0 <= b < |table| && nhash > 0
      reads this`repr, repr
    {
      table[b] in repr && forall l :: l in table[b].links ==> Listed(b, l)
    }

    ghost predicate Queues()
      reads this`repr, repr
    {
      this !in repr && |table| == nhash > 0 && LruOk() && forall b :: 0 <= b < nhash ==> ChainOk(b)
    }

    ghost predicate Linked()
      reads this`repr, repr
    {
      && Queues()
      && (forall l :: l in lru.links ==> Chained(l))
      && (forall b :: 0 <= b < nhash ==> Members(b))
    }

    ghost predicate Valid()
      reads this, repr
    {
      Linked() && size == Total(View()) <= maxSize
    }

    /** init_hash_partition. */
    constructor (maxSize: nat, nservers: nat)
      requires nservers > 0
      ensures Valid() && fresh(repr)
      ensures View() == [] && this.maxSize == maxSize && nhash == Placement.NHash(maxSize, nservers)
      ensures (nhash + 1) % nservers == 0 && 10 <= nhash + 1 && ToInt(maxSize / 256) <= nhash + 1
      ensures nhash + 1 < 10 + nservers || nhash + 1 < ToInt(maxSize / 256) + nservers
    {
      Placement.NHashIs(maxSize, nservers);
      Placement.NHashCoprime(maxSize, nservers);
      var n: nat := Placement.NHash(maxSize, nservers);
      var t: seq<Queue> := [];
      for b := 0 to n
        invariant |t| == b && fresh(t)
        invariant forall c :: 0 <= c < b ==> t[c].tag == c && t[c].Valid() && t[c].links == []
      {
        var q := new Queue(b);
        t := t + [q];
      }
      var l := new Queue(LRU_TAG);
      this.maxSize, nhash, table, lru, size := maxSize, n, t, l, 0;
      repr := {l} + set q | q in t;
    }

    lemma Apart(b: int, c: int)
      requires 0 <= b < |table| && 0 <= c < |table| && ChainOk(b) && ChainOk(c) && LruOk()
      ensures table[b] != lru && forall l :: l in table[b].links ==> l !in lru.links
      ensures b != c ==> table[b] != table[c] && forall l :: l in table[b].links ==> l !in table[c].links
    {
    }

    /** Chains that nobody has touched are still chains. */
    twostate lemma ChainStill(b: int)
      requires 0 <= b < |table| && repr == old(repr) && old(ChainOk(b)) && unchanged(table[b])
      requires forall l :: l in table[b].links ==> unchanged(l)
      ensures ChainOk(b)
    {
      Still(table[b]);
    }

    /** The pointers of lru: remove, then insert at the head. */
    method MoveToFront(e: Elem, ghost i: nat)
      requires Queues() && i < |lru.links| && e.lru == lru.links[i]
      modifies lru, lru.links`next, lru.links`prev
      ensures Queues()
      ensures lru.links == [old(lru.links)[i]] + Without(old(lru.links), i)
      ensures forall d :: 0 <= d < nhash ==> table[d].links == old(table[d].links)
    {
      EntriesWithout(lru.links, i);
      forall b | 0 <= b < nhash ensures table[b] != lru && forall l :: l in table[b].links ==> l !in lru.links {
        Apart(b, b);
      }
      lru.MoveToHead(e.lru, i);
      forall b | 0 <= b < nhash ensures ChainOk(b) {
        ChainStill(b);
      }
    }

    /** The two TAILQ_REMOVEs of hash_remove. */
    method TakeOut(e: Elem, ghost i: nat, ghost c: nat, ghost b: nat)
      requires Queues() && b == Placement.BucketOf(e.key, nhash) && i < |lru.links|
      requires ChainOk(b) && c < |table[b].links|
      requires e.lru == lru.links[i] && e.chain == table[b].links[c]
      modifies lru, lru.links`next, lru.links`prev
      modifies table[b], table[b].links`next, table[b].links`prev
      ensures Queues()
      ensures lru.links == Without(old(lru.links), i)
      ensures table[b].links == Without(old(table[b].links), c)
      ensures forall d :: 0 <= d < nhash && d != b ==> table[d].links == old(table[d].links)
    {
      EntriesWithout(lru.links, i);
      forall d | 0 <= d < nhash
        ensures table[d] != lru && forall l :: l in table[d].links ==> l !in lru.links
        ensures d != b ==> table[d] != table[b] && forall l :: l in table[d].links ==> l !in table[b].links
      {
        Apart(d, b);
      }
      table[Placement.BucketOf(e.key, nhash)].Remove(e.chain, c);
      Still(lru);
      label chained:
      lru.Remove(e.lru, i);
      Still@chained(table[b]);
      forall d | 0 <= d < nhash && d != b ensures ChainOk(d) {
        ChainStill(d);
      }
    }

    /** lru: the element becomes the most recent one. */
    method MakeRecent(e: Elem, ghost i: nat)
      requires Linked() && i < |lru.links| && lru.links[i].elem == e
      modifies lru, lru.links`next, lru.links`prev
      ensures Linked() && lru.links == [old(lru.links)[i]] + Without(old(lru.links), i)
    {
      assert Chained(lru.links[i]);
      MoveToFront(e, i);
      WithoutMembers(old(lru.links), i);
      forall l | l in lru.links ensures Chained(l) {
        assert old(Chained(l));
      }
      forall b | 0 <= b < nhash ensures Members(b) {
        assert old(Members(b)) && ChainOk(b);
        forall l | l in table[b].links ensures Listed(b, l) {
          assert old(Listed(b, l));
        }
      }
    }

    /** hash_remove. */
    method Unlink(e: Elem, ghost i: nat)
      requires Linked() && i < |lru.links| && lru.links[i].elem == e && e.size <= size
      modifies this`size, repr
      ensures Linked() && lru.links == Without(old(lru.links), i)
      ensures size == old(size) - e.size
    {
      assert Chained(lru.links[i]);
      ghost var b := Placement.BucketOf(e.key, nhash);
      assert ChainOk(b);
      ghost var c :| 0 <= c < |table[b].links| && table[b].links[c] == e.chain;
      WithoutMembers(lru.links, i);
      WithoutMembers(table[b].links, c);
      size := size - e.size;
      TakeOut(e, i, c, b);
      forall l | l in lru.links ensures Chained(l) {
        assert old(Chained(l));
      }
      forall d | 0 <= d < nhash ensures Members(d) {
        assert old(Members(d)) && ChainOk(d);
        forall l | l in table[d].links ensures Listed(d, l) {
          assert old(Listed(d, l));
        }
      }
    }

    /** The insertions of hash_insert: tail of the chain, head of the LRU list. */
    method PutIn(cl: Link, ll: Link, ghost b: nat)
      requires Queues() && b < nhash && ChainOk(b) && cl !in repr && ll !in repr
      requires cl.tag == b && ll.tag == LRU_TAG && b == Placement.BucketOf(cl.elem.key, nhash)
      requires DistinctKeys(Entries([ll] + lru.links))
      modifies this`repr, cl`next, cl`prev, ll`next, ll`prev
      modifies lru, lru.links`next, lru.links`prev
      modifies table[b], table[b].links`next, table[b].links`prev
      ensures Queues() && repr == old(repr) + {cl.elem, cl, ll}
      ensures lru.links == [ll] + old(lru.links)
      ensures table[b].links == old(table[b].links) + [cl]
      ensures forall d :: 0 <= d < nhash && d != b ==> table[d].links == old(table[d].links)
    {
      forall d | 0 <= d < nhash
        ensures table[d] != lru && forall l :: l in table[d].links ==> l !in lru.links
        ensures d != b ==> table[d] != table[b] && forall l :: l in table[d].links ==> l !in table[b].links
        ensures cl !in table[d].links && ll !in table[d].links
      {
        Apart(d, b);
      }
      table[Placement.BucketOf(cl.elem.key, nhash)].InsertTail(cl);
      Still(lru);
      label chained:
      lru.InsertHead(ll);
      Still@chained(table[b]);
      repr := repr + {cl.elem, cl, ll};
      forall d | 0 <= d < nhash && d != b ensures ChainOk(d) {
        assert old(ChainOk(d));
        Still(table[d]);
      }
    }

    method Add(key: nat, z: nat) returns (e: Elem)
      requires Linked() && forall l :: l in lru.links ==> l.elem.key != key
      modifies this`repr, repr
      ensures Linked() && fresh(repr - old(repr)) && fresh(e)
      ensures View() == [Entry(key, z, e)] + old(View())
    {
      ghost var b := Placement.BucketOf(key, nhash);
      assert ChainOk(b);
      e := new Elem(key, z, b, LRU_TAG);
      var cl: Link, ll: Link := e.chain, e.lru;
      EntriesPush(ll, lru.links);
      PutIn(cl, ll, b);
      forall l | l in lru.links ensures Chained(l) {
        assert l != ll ==> old(Chained(l));
      }
      forall d | 0 <= d < nhash ensures Members(d) {
        assert old(Members(d)) && ChainOk(d);
        forall l | l in table[d].links ensures Listed(d, l) {
          assert l != cl ==> old(Listed(d, l));
        }
      }
    }

    /** Every entry with this key is in the chain that hash_lookup walks. */
    lemma InItsChain(key: nat)
      requires Linked()
      ensures var es, ls := View(), table[Placement.BucketOf(key, nhash)].links;
              Find(es, key) < |es| ==> exists l :: l in ls && l.elem.key == key
      ensures forall l :: l in table[Placement.BucketOf(key, nhash)].links && l.elem.key == key ==>
              var i := Find(View(), key); i < |lru.links| && lru.links[i].elem == l.elem
    {
      var b := Placement.BucketOf(key, nhash);
      assert ChainOk(b) && Members(b);
      var k := Find(View(), key);
      if k < |View()| {
        assert Chained(lru.links[k]);
        assert View()[k].elem.chain in table[b].links;
      }
      forall l | l in table[b].links && l.elem.key == key
        ensures var i := Find(View(), key); i < |lru.links| && lru.links[i].elem == l.elem
      {
        assert Listed(b, l);
        var i :| 0 <= i < |lru.links| && lru.links[i] == l.elem.lru;
        FindIs(View(), key, i);
      }
    }

    /** hash_lookup. */
    method Lookup(key: nat) returns (e: Elem?)
      requires Linked()
      modifies lru, lru.links`next, lru.links`prev
      ensures Linked() && View() == Touch(old(View()), key)
      ensures var i := Find(old(View()), key);
              e == if i < |old(View())| then old(View())[i].elem else null
    {
      InItsChain(key);
      ghost var b, i := Placement.BucketOf(key, nhash), Find(View(), key);
      ghost var ls := table[b].links;
      assert ChainOk(b);
      var cur := table[Placement.BucketOf(key, nhash)].first;
      ghost var c: nat := 0;
      while cur != null
        invariant c <= |ls| && cur == (if c < |ls| then ls[c] else null)
        invariant forall j :: 0 <= j < c ==> ls[j].elem.key != key
        decreases |ls| - c
      {
        assert table[b].LinkOk(c);
        if cur.elem.key == key {
          e := cur.elem;
          EntriesWithout(lru.links, i);
          MakeRecent(e, i);
          return;
        }
        cur := cur.next;
        c := c + 1;
      }
      e := null;
    }

    lemma FirstSize()
      requires |View()| > 0
      ensures View()[0].size == View()[0].elem.size
    {
    }

    method UnlinkFirst(e: Elem, ghost rest: seq<Entry<Elem>>)
      requires Linked() && |View()| > 0 && View()[0].elem == e && rest == Without(View(), 0)
      requires size == e.size + Total(rest)
      modifies this`size, repr
      ensures Linked() && View() == rest && size == Total(rest)
    {
      EntriesWithout(lru.links, 0);
      Unlink(e, 0);
    }

    /** The first part of hash_insert: the old element for the key goes. */
    method DropOld(key: nat) returns (released: seq<Elem>)
      requires Linked() && size == Total(View())
      modifies this`size, repr
      ensures Linked() && View() == Drop(old(View()), key)
      ensures size == Total(Drop(old(View()), key))
      ensures var es := old(View());
              released == if Find(es, key) < |es| then [es[Find(es, key)].elem] else []
    {
      ghost var es := View();
      var e := Lookup(key);
      released := [];
      if e != null {
        TouchThenDrop(es, key);
        FirstSize();
        UnlinkFirst(e, Drop(es, key));
        released := [e];
      }
    }

    /** The eviction loop of hash_insert, with z bytes already added to the size.  It fails
        the assertion of partition.c exactly when z alone is over the budget. */
    method MakeRoom(z: nat) returns (ok: bool, released: seq<Elem>)
      requires Linked() && size == Total(View()) + z
      modifies this`size, repr
      ensures Linked() && size == Total(View()) + z
      ensures ok <==> z <= maxSize
      ensures ok ==> View() == Evict(old(View()), maxSize - z) && released == Victims(old(View()), maxSize - z)
    {
      ghost var es := View();
      released := [];
      while size > maxSize
        invariant Linked() && size == Total(View()) + z
        invariant z <= maxSize ==> Evict(View(), maxSize - z) == Evict(es, maxSize - z)
        invariant z <= maxSize ==> released + Victims(View(), maxSize - z) == Victims(es, maxSize - z)
        decreases |lru.links|
      {
        if size <= z { return false, released; }
        ghost var now := View();
        LastOut(now);
        EntriesWithout(lru.links, |lru.links| - 1);
        var l := lru.last;
        Unlink(l.elem, |lru.links| - 1);
        released := released + [l.elem];
      }
      ok := true;
    }

    /** hash_insert up to the point where the new element exists. */
    method Clear(key: nat, z: nat) returns (ok: bool, released: seq<Elem>)
      requires Linked() && size == Total(View())
      modifies this`size, repr
      ensures ok <==> z <= maxSize
      ensures Linked() && size == Total(View()) + z
      ensures ok ==>
        var es := old(View());
        && View() == Evict(Drop(es, key), maxSize - z)
        && released == (if Find(es, key) < |es| then [es[Find(es, key)].elem] else [])
                       + Victims(Drop(es, key), maxSize - z)
    {
      released := DropOld(key);
      size := size + z;
      var victims;
      ok, victims := MakeRoom(z);
      released := released + victims;
    }

    lemma KeyGone(es: seq<Entry<Elem>>, key: nat, room: nat)
      requires DistinctKeys(es) && View() == Evict(Drop(es, key), room)
      ensures forall l :: l in lru.links ==> l.elem.key != key
    {
      DropFacts(es, key);
      EvictIsLongestFittingPrefix(Drop(es, key), room);
      forall l | l in lru.links ensures l.elem.key != key {
        var i :| 0 <= i < |lru.links| && lru.links[i] == l;
        assert View()[i] in Drop(es, key);
      }
    }

    /** hash_insert: it refines Lru.Insert, and fails its assertion (a null result here)
        exactly when the size rounded up to cache lines is over the budget.  It releases the old
        element for the key and then the victims, each once, least recent first. */
    method Insert(key: nat, bytes: nat) returns (e: Elem?, released: seq<Elem>)
      requires Valid()
      modifies this`size, this`repr, repr
      ensures e != null <==> exists z: nat :: Elements.RoundsTo(bytes, z) && z <= maxSize
      ensures e != null ==>
        var es, z := old(View()), Elements.RoundedSize(bytes);
        && Valid() && fresh(repr - old(repr)) && fresh(e)
        && View() == Lru.Insert(es, maxSize, Entry(key, z, e)) && Elements.RoundsTo(bytes, z)
        && released == (if Find(es, key) < |es| then [es[Find(es, key)].elem] else [])
                       + Victims(Drop(es, key), maxSize - z)
    {
      ghost var es := View();
      var z := Elements.RoundedSize(bytes);
      forall x: nat ensures Elements.RoundsTo(bytes, x) <==> x == z { Elements.RoundedIff(bytes, x); }
      assert Elements.RoundsTo(bytes, z);
      var ok;
      ok, released := Clear(key, z);
      if !ok { return null, released; }
      e := AddCleared(es, key, z);
    }

    /** The end of hash_insert: there is room and no element with the key. */
    method AddCleared(ghost es: seq<Entry<Elem>>, key: nat, z: nat) returns (e: Elem)
      requires Linked() && DistinctKeys(es) && z <= maxSize
      requires View() == Evict(Drop(es, key), maxSize - z) && size == Total(View()) + z
      modifies this`repr, repr
      ensures Valid() && fresh(repr - old(repr)) && fresh(e)
      ensures View() == Lru.Insert(es, maxSize, Entry(key, z, e))
    {
      KeyGone(es, key, maxSize - z);
      ghost var kept := View();
      EvictIsLongestFittingPrefix(Drop(es, key), maxSize - z);
      e := Add(key, z);
      PushTotal(Entry(key, z, e), kept);
    }

    /** The walk of destroy_hash_partition over one chain. */
    method ReleaseChain(b: nat) returns (bytes: nat, released: seq<Elem>)
      requires Linked() && b < nhash
      ensures Records(released) == Entries(table[b].links) && bytes == Total(Entries(table[b].links))
    {
      assert ChainOk(b);
      ghost var ls := table[b].links;
      var cur := table[b].first;
      ghost var c: nat := 0;
      bytes, released := 0, [];
      while cur != null
        invariant c <= |ls| && cur == (if c < |ls| then ls[c] else null)
        invariant Records(released) == Entries(ls[..c]) && bytes == Total(Entries(ls[..c]))
        decreases |ls| - c
      {
        assert table[b].LinkOk(c);
        assert Entries(ls[..c + 1])[..c] == Entries(ls[..c]);
        bytes := bytes + cur.elem.size;
        released := released + [cur.elem];
        cur := cur.next;
        c := c + 1;
      }
      assert ls[..c] == ls;
    }

    /** What the walk over the first n chains has passed. */
    ghost predicate Walked(n: int, ls: seq<Link>)
      requires nhash > 0
      reads this`repr, repr
    {
      && lru in repr && Distinct(ls)
      && (forall l :: l in ls ==>
            var b := Placement.BucketOf(l.elem.key, nhash); b < n && Listed(b, l))
      && (forall l :: l in lru.links && Placement.BucketOf(l.elem.key, nhash) < n ==>
            l.elem in repr && l.elem.chain != null && l.elem.chain in ls)
    }

    lemma WalkOn(b: nat, ls: seq<Link>)
      requires Linked() && b < nhash && Walked(b, ls)
      ensures ChainOk(b) && Walked(b + 1, ls + table[b].links)
    {
      assert ChainOk(b) && Members(b);
      var all := ls + table[b].links;
      forall i, j | 0 <= i < j < |all| ensures all[i] != all[j] {
        assert i < |ls| ==> all[i] in ls;
        assert j >= |ls| ==> Listed(b, all[j]);
      }
    }

    lemma WalkedAll(ls: seq<Link>)
      requires Linked() && Walked(nhash, ls)
      ensures multiset(Entries(ls)) == multiset(View()) && Total(Entries(ls)) == Total(View())
    {
      var a, b := Entries(ls), View();
      forall x | x in a ensures x in b {
        var i :| 0 <= i < |ls| && x == a[i];
        assert ls[i] in ls;
        var j :| 0 <= j < |lru.links| && lru.links[j] == ls[i].elem.lru;
        assert b[j] == x;
      }
      forall x | x in b ensures x in a {
        var j :| 0 <= j < |lru.links| && x == b[j];
        assert Chained(lru.links[j]);
        var i :| 0 <= i < |ls| && ls[i] == lru.links[j].elem.chain;
        assert a[i] == x;
      }
      forall i, j | 0 <= i < j < |a| ensures a[i] != a[j] {
        assert ls[i] in ls && ls[j] in ls;
      }
      SameMembers(a, b);
    }

    /** destroy_hash_partition: every element of the partition is released exactly once,
        and the bytes it counts are p->size, so its assertion holds. */
    method Destroy() returns (bytes: nat, released: seq<Elem>)
      requires Valid()
      ensures multiset(Records(released)) == multiset(View())
      ensures bytes == size
    {
      ghost var ls: seq<Link> := [];
      bytes, released := 0, [];
      for b := 0 to nhash
        invariant Walked(b, ls)
        invariant Records(released) == Entries(ls) && bytes == Total(Entries(ls))
      {
        WalkOn(b, ls);
        EntriesConcat(ls, table[b].links);
        var more, es := ReleaseChain(b);
        RecordsConcat(released, es);
        bytes, released := bytes + more, released + es;
        ls := ls + table[b].links;
      }
      WalkedAll(ls);
    }
  }
}
