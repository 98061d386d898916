/** The recency list a partition keeps, as a value: entries from most to least
    recently touched.  It is what partition.c refines when it runs EVICT_LRU. */
module Lru {

  /** One element of a partition: its key, its rounded size in bytes, and its identity. */
  datatype Entry<T> = Entry(key: nat, size: nat, elem: T)

  function Total<T>(es: seq<Entry<T>>): nat {
    if es == [] then 0 else Total(es[..|es| - 1]) + es[|es| - 1].size
  }

  ghost predicate DistinctKeys<T>(es: seq<Entry<T>>) {
    forall i, j :: 0 <= i < j < |es| ==> es[i].key != es[j].key
  }

  /** Position of the entry for `key`, or |es| when there is none. */
  function Find<T>(es: seq<Entry<T>>, key: nat): (i: nat)
    ensures i <= |es|
    ensures i < |es| ==> es[i].key == key
    ensures forall j :: 0 <= j < i ==> es[j].key != key
  {
    if es == [] then 0 else if es[0].key == key then 0 else 1 + Find(es[1..], key)
  }

  function Without<T>(es: seq<T>, i: nat): (r: seq<T>)
    requires i < |es|
  {
    es[..i] + es[i + 1..]
  }

  /** hash_lookup: the entry found becomes the most recent one, whether or not it is ready. */
  function Touch<T>(es: seq<Entry<T>>, key: nat): seq<Entry<T>> {
    var i := Find(es, key);
    if i < |es| then [es[i]] + Without(es, i) else es
  }

  /** The first step of hash_insert: the old entry for the key goes. */
  function Drop<T>(es: seq<Entry<T>>, key: nat): seq<Entry<T>> {
    var i := Find(es, key);
    if i < |es| then Without(es, i) else es
  }

  /** The eviction loop: the least recent entry goes until the rest fits in `room`. */
  function Evict<T>(es: seq<Entry<T>>, room: nat): seq<Entry<T>>
    decreases |es|
  {
    if Total(es) <= room then es else Evict(es[..|es| - 1], room)
  }

  /** The victims of that loop in the order it releases them. */
  function Victims<T>(es: seq<Entry<T>>, room: nat): seq<T>
    decreases |es|
  {
    if Total(es) <= room then [] else [es[|es| - 1].elem] + Victims(es[..|es| - 1], room)
  }

  function Insert<T>(es: seq<Entry<T>>, maxSize: nat, e: Entry<T>): seq<Entry<T>>
    requires e.size <= maxSize
  {
    [e] + Evict(Drop(es, e.key), maxSize - e.size)
  }

  lemma {:induction false} TotalConcat<T>(a: seq<Entry<T>>, b: seq<Entry<T>>)
    ensures Total(a + b) == Total(a) + Total(b)
    decreases |b|
  {
    if b == [] {
      assert a + b == a;
    } else {
      assert (a + b)[..|a + b| - 1] == a + b[..|b| - 1];
      TotalConcat(a, b[..|b| - 1]);
    }
  }

  lemma TotalAround<T>(a: seq<Entry<T>>, e: Entry<T>, b: seq<Entry<T>>)
    ensures Total(a + [e] + b) == Total(a) + e.size + Total(b)
    ensures Total([e] + (a + b)) == Total(a) + e.size + Total(b)
    ensures Total(a + b) == Total(a) + Total(b)
  {
    TotalConcat(a + [e], b);
    assert (a + [e])[..|a|] == a;
    TotalConcat([e], a + b);
    TotalConcat(a, b);
    assert [e][..0] == [];
  }

  lemma Around<T>(s: seq<T>, i: nat)
    requires i < |s|
    ensures s == s[..i] + [s[i]] + s[i + 1..]
  {
  }

  lemma TotalWithout<T>(es: seq<Entry<T>>, i: nat)
    requires i < |es|
    ensures Total(es) == Total(Without(es, i)) + es[i].size
    ensures Total([es[i]] + Without(es, i)) == Total(es)
  {
    var a, e, b := es[..i], es[i], es[i + 1..];
    Around(es, i);
    TotalAround(a, e, b);
    assert Without(es, i) == a + b;
  }

  /** Eviction keeps the longest prefix that fits: it removes the shortest suffix
      of the recency order that makes room, and releases it last entry first. */
  lemma {:induction false} EvictIsLongestFittingPrefix<T>(es: seq<Entry<T>>, room: nat)
    ensures var k := |Evict(es, room)|;
            && k <= |es| && Evict(es, room) == es[..k] && Total(es[..k]) <= room
            && (forall j :: k < j <= |es| ==> Total(es[..j]) > room)
            && |Victims(es, room)| == |es| - k
            && (forall j :: 0 <= j < |es| - k ==> Victims(es, room)[j] == es[|es| - 1 - j].elem)
    decreases |es|
  {
    if Total(es) > room {
      var init := es[..|es| - 1];
      EvictIsLongestFittingPrefix(init, room);
      forall j | |Evict(es, room)| < j <= |es| ensures Total(es[..j]) > room {
        if j < |es| { assert es[..j] == init[..j]; } else { assert es[..j] == es; }
      }
    } else {
      assert es[..|es|] == es;
    }
  }

  lemma InsertTotal<T>(es: seq<Entry<T>>, maxSize: nat, e: Entry<T>)
    requires e.size <= maxSize
    ensures Total(Insert(es, maxSize, e)) <= maxSize
  {
    var kept := Evict(Drop(es, e.key), maxSize - e.size);
    EvictIsLongestFittingPrefix(Drop(es, e.key), maxSize - e.size);
    TotalAround([], e, kept);
    assert [e] + ([] + kept) == [e] + kept;
  }

  lemma DropFacts<T>(es: seq<Entry<T>>, key: nat)
    requires DistinctKeys(es)
    ensures DistinctKeys(Drop(es, key))
    ensures forall x :: x in Drop(es, key) <==> x in es && x.key != key
  {
    var i := Find(es, key);
    if i < |es| {
      var d := Drop(es, key);
      assert forall j :: 0 <= j < |d| ==> d[j] == es[if j < i then j else j + 1];
      assert forall j :: 0 <= j < |es| && j != i ==> es[j] == d[if j < i then j else j - 1];
    }
  }

  lemma PushDistinct<T>(e: Entry<T>, d: seq<Entry<T>>, k: nat)
    requires DistinctKeys(d) && k <= |d| && forall x :: x in d ==> x.key != e.key
    ensures DistinctKeys([e] + d[..k])
    ensures forall x :: x in ([e] + d[..k])[1..] ==> x in d
  {
  }

  /** hash_insert keeps keys distinct, fits the budget, puts the new entry first and
      keeps only entries for other keys that were there. */
  lemma InsertKeepsBudget<T>(es: seq<Entry<T>>, maxSize: nat, e: Entry<T>)
    requires DistinctKeys(es) && e.size <= maxSize
    ensures var r := Insert(es, maxSize, e);
            && DistinctKeys(r) && Total(r) <= maxSize && r[0] == e
            && forall x :: x in r[1..] ==> x in es && x.key != e.key
  {
    InsertTotal(es, maxSize, e);
    DropFacts(es, e.key);
    EvictIsLongestFittingPrefix(Drop(es, e.key), maxSize - e.size);
    PushDistinct(e, Drop(es, e.key), |Evict(Drop(es, e.key), maxSize - e.size)|);
  }
}
