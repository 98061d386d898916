/** LRU inclusion: with equal element sizes a larger partition always holds
    what a smaller one holds, in the same relative order. */
module Inclusion {
  import opened Basics
  import opened Lru

  datatype Access = Get(key: nat) | Put(key: nat, size: nat)

  ghost predicate Fits(maxSize: nat, trace: seq<Access>) {
    forall i :: 0 <= i < |trace| && trace[i].Put? ==> trace[i].size <= maxSize
  }

  function Apply(es: seq<Entry<nat>>, maxSize: nat, a: Access): seq<Entry<nat>>
    requires a.Put? ==> a.size <= maxSize
  {
    match a
    case Get(key) => Touch(es, key)
    case Put(key, size) => Insert(es, maxSize, Entry(key, size, key))
  }

  /** The recency list after a trace of lookups and inserts on an empty partition. */
  ghost function After(maxSize: nat, trace: seq<Access>): seq<Entry<nat>>
    requires Fits(maxSize, trace)
  {
    if trace == [] then [] else Apply(After(maxSize, trace[..|trace| - 1]), maxSize, trace[|trace| - 1])
  }

  function Keys(es: seq<Entry<nat>>): (ks: seq<nat>)
    ensures |ks| == |es| && forall i :: 0 <= i < |es| ==> ks[i] == es[i].key
  {
    seq(|es|, i requires 0 <= i < |es| => es[i].key)
  }

  ghost predicate Subseq(a: seq<nat>, b: seq<nat>) {
    a == []
    || (b != [] && ((a[|a| - 1] == b[|b| - 1] && Subseq(a[..|a| - 1], b[..|b| - 1])) || Subseq(a, b[..|b| - 1])))
  }

  // A subsequence of a list without repetitions is given by the set of keys it keeps.

  ghost function Keep(b: seq<nat>, kept: set<nat>): seq<nat> {
    if b == [] then [] else
      var last := b[|b| - 1];
      Keep(b[..|b| - 1], kept) + (if last in kept then [last] else [])
  }

  lemma {:induction false} KeepConcat(a: seq<nat>, b: seq<nat>, kept: set<nat>)
    ensures Keep(a + b, kept) == Keep(a, kept) + Keep(b, kept)
  {
    if b == [] {
      assert a + b == a;
    } else {
      assert (a + b)[..|a + b| - 1] == a + b[..|b| - 1];
      KeepConcat(a, b[..|b| - 1], kept);
    }
  }

  lemma {:induction false} KeepSame(b: seq<nat>, s: set<nat>, t: set<nat>)
    requires forall x :: x in b ==> (x in s <==> x in t)
    ensures Keep(b, s) == Keep(b, t)
  {
    if b != [] { KeepSame(b[..|b| - 1], s, t); }
  }

  lemma {:induction false} KeepMembers(b: seq<nat>, kept: set<nat>, x: nat)
    ensures x in Keep(b, kept) <==> x in b && x in kept
  {
    if b != [] {
      KeepMembers(b[..|b| - 1], kept, x);
      assert x in b <==> x in b[..|b| - 1] || x == b[|b| - 1];
    }
  }

  lemma {:induction false} KeepAll(b: seq<nat>, kept: set<nat>)
    requires forall x :: x in b ==> x in kept
    ensures Keep(b, kept) == b
  {
    if b != [] { KeepAll(b[..|b| - 1], kept); }
  }

  lemma {:induction false} KeepSubseq(b: seq<nat>, kept: set<nat>)
    ensures Subseq(Keep(b, kept), b)
  {
    if b != [] {
      var init, k := Keep(b[..|b| - 1], kept), Keep(b, kept);
      KeepSubseq(b[..|b| - 1], kept);
      if b[|b| - 1] in kept { assert k[..|k| - 1] == init; } else { assert k == init; }
    }
  }

  lemma KeepElements(b: seq<nat>, kept: set<nat>)
    ensures forall x :: x in Keep(b, kept) <==> x in b && x in kept
    ensures (forall x :: x in b ==> x in kept) ==> Keep(b, kept) == b
    ensures (forall x :: x in b ==> x !in kept) ==> Keep(b, kept) == []
    ensures Subseq(Keep(b, kept), b)
  {
    forall x ensures x in Keep(b, kept) <==> x in b && x in kept { KeepMembers(b, kept, x); }
    if forall x :: x in b ==> x in kept { KeepAll(b, kept); }
    KeepSubseq(b, kept);
    assert Keep(b, kept) != [] ==> Keep(b, kept)[0] in Keep(b, kept);
  }

  /** `ks` without the key k. */
  function Minus(ks: seq<nat>, k: nat): seq<nat> {
    if ks == [] then [] else
      var last := ks[|ks| - 1];
      Minus(ks[..|ks| - 1], k) + (if last == k then [] else [last])
  }

  lemma {:induction false} MinusConcat(a: seq<nat>, b: seq<nat>, k: nat)
    ensures Minus(a + b, k) == Minus(a, k) + Minus(b, k)
  {
    if b == [] {
      assert a + b == a;
    } else {
      assert (a + b)[..|a + b| - 1] == a + b[..|b| - 1];
      MinusConcat(a, b[..|b| - 1], k);
    }
  }

  lemma {:induction false} MinusElements(ks: seq<nat>, k: nat)
    ensures forall x :: x in Minus(ks, k) <==> x in ks && x != k
    ensures k !in ks ==> Minus(ks, k) == ks
  {
    if ks != [] {
      MinusElements(ks[..|ks| - 1], k);
      assert ks == ks[..|ks| - 1] + [ks[|ks| - 1]];
    }
  }

  lemma MinusAround(p: seq<nat>, k: nat, q: seq<nat>)
    requires k !in p && k !in q
    ensures Minus(p + [k] + q, k) == p + q
  {
    MinusLast(p, k);
    MinusConcat(p + [k], q, k);
    MinusNone(p, k);
    MinusNone(q, k);
  }

  lemma MinusLast(a: seq<nat>, k: nat)
    ensures Minus(a + [k], k) == Minus(a, k)
  {
    assert (a + [k])[..|a + [k]| - 1] == a;
    assert Minus(a, k) + [] == Minus(a, k);
  }

  lemma MinusNone(ks: seq<nat>, k: nat)
    requires k !in ks
    ensures Minus(ks, k) == ks
  {
    MinusElements(ks, k);
  }

  lemma MinusAt(ks: seq<nat>, i: nat)
    requires i < |ks| && Distinct(ks)
    ensures Minus(ks, ks[i]) == ks[..i] + ks[i + 1..]
  {
    Around(ks, i);
    MinusAround(ks[..i], ks[i], ks[i + 1..]);
  }

  lemma {:induction false} MinusDistinct(ks: seq<nat>, k: nat)
    requires Distinct(ks)
    ensures Distinct(Minus(ks, k))
    ensures |Minus(ks, k)| == |ks| - (if k in ks then 1 else 0)
  {
    if ks != [] {
      var init, last := ks[..|ks| - 1], ks[|ks| - 1];
      MinusDistinct(init, k);
      MinusElements(init, k);
      assert last !in init;
      if last == k { assert Minus(ks, k) == Minus(init, k); }
    }
  }

  lemma {:induction false} MinusKeep(b: seq<nat>, kept: set<nat>, k: nat)
    ensures Minus(Keep(b, kept), k) == Keep(Minus(b, k), kept)
    ensures Minus(Keep(b, kept), k) == Keep(b, kept - {k})
  {
    if b != [] {
      var init, last := b[..|b| - 1], b[|b| - 1];
      MinusKeep(init, kept, k);
      if last in kept { MinusSnoc(Keep(init, kept), last, k); } else { assert Keep(b, kept) == Keep(init, kept); }
      if last != k { KeepSnoc(Minus(init, k), last, kept); } else { assert Minus(b, k) == Minus(init, k); }
    }
  }

  lemma MinusSnoc(a: seq<nat>, x: nat, k: nat)
    ensures Minus(a + [x], k) == Minus(a, k) + (if x == k then [] else [x])
  {
    assert (a + [x])[..|a + [x]| - 1] == a;
  }

  lemma KeepSnoc(a: seq<nat>, x: nat, kept: set<nat>)
    ensures Keep(a + [x], kept) == Keep(a, kept) + (if x in kept then [x] else [])
  {
    assert (a + [x])[..|a + [x]| - 1] == a;
  }

  lemma {:induction false} KeepDistinct(b: seq<nat>, kept: set<nat>)
    requires Distinct(b)
    ensures Distinct(Keep(b, kept))
  {
    if b != [] {
      KeepDistinct(b[..|b| - 1], kept);
      KeepElements(b[..|b| - 1], kept);
    }
  }

  // Touch and Insert seen on keys only.

  ghost predicate Uniform(es: seq<Entry<nat>>, z: nat) {
    forall x :: x in es ==> x.size == z
  }

  lemma WithoutKeys(es: seq<Entry<nat>>, i: nat)
    requires i < |es|
    ensures Keys(Without(es, i)) == Keys(es)[..i] + Keys(es)[i + 1..]
    ensures Keys([es[i]] + Without(es, i)) == [es[i].key] + Keys(Without(es, i))
  {
  }

  lemma DropKeys(es: seq<Entry<nat>>, key: nat)
    requires DistinctKeys(es)
    ensures Keys(Drop(es, key)) == Minus(Keys(es), key)
    ensures Keys(Touch(es, key)) == if key in Keys(es) then [key] + Minus(Keys(es), key) else Keys(es)
  {
    var i, ks := Find(es, key), Keys(es);
    if i < |es| {
      MinusAt(ks, i);
      WithoutKeys(es, i);
      assert ks[i] in ks;
    } else {
      assert Minus(ks, key) == ks by { MinusElements(ks, key); }
    }
  }

  lemma {:induction false} UniformTotal(es: seq<Entry<nat>>, z: nat)
    requires Uniform(es, z)
    ensures Total(es) == |es| * z
  {
    if es != [] {
      UniformTotal(es[..|es| - 1], z);
      assert es[|es| - 1] in es;
      assert (|es| - 1) * z + z == |es| * z;
    }
  }

  function Take<T>(s: seq<T>, n: nat): seq<T> {
    if n < |s| then s[..n] else s
  }

  lemma MulMono(a: nat, b: nat, z: nat)
    requires a <= b
    ensures a * z <= b * z
  {
    assert (b - a) * z >= 0;
  }

  ghost predicate Capacity(cap: nat, z: nat, maxSize: nat) {
    0 < cap && cap * z <= maxSize < cap * z + z
  }

  /** With equal sizes the byte budget is a bound on the number of entries. */
  lemma EvictUniform(es: seq<Entry<nat>>, z: nat, cap: nat, maxSize: nat)
    requires Uniform(es, z) && Capacity(cap, z, maxSize)
    ensures z <= maxSize && Evict(es, maxSize - z) == Take(es, cap - 1)
  {
    assert (cap - 1) * z + z == cap * z;
    assert (cap - 1) * z >= 0;
    var room := maxSize - z;
    EvictIsLongestFittingPrefix(es, room);
    var k := |Evict(es, room)|;
    UniformTotal(es[..k], z);
    if k > cap - 1 {
      MulMono(cap, k, z);
      assert false;
    } else if k < cap - 1 && k < |es| {
      UniformTotal(es[..k + 1], z);
      MulMono(k + 1, cap - 1, z);
      assert false;
    }
  }

  lemma InsertKeys(es: seq<Entry<nat>>, z: nat, cap: nat, maxSize: nat, key: nat)
    requires Uniform(es, z) && Capacity(cap, z, maxSize) && DistinctKeys(es)
    ensures z <= maxSize
    ensures Keys(Insert(es, maxSize, Entry(key, z, key))) == [key] + Take(Minus(Keys(es), key), cap - 1)
  {
    DropUniform(es, z, key);
    DropKeys(es, key);
    InsertIs(es, Drop(es, key), z, cap, maxSize, key);
    TakeKeys(Drop(es, key), cap - 1, Entry(key, z, key));
  }

  lemma InsertIs(es: seq<Entry<nat>>, d: seq<Entry<nat>>, z: nat, cap: nat, maxSize: nat, key: nat)
    requires d == Drop(es, key) && Uniform(d, z) && Capacity(cap, z, maxSize)
    ensures z <= maxSize && Insert(es, maxSize, Entry(key, z, key)) == [Entry(key, z, key)] + Take(d, cap - 1)
  {
    EvictUniform(d, z, cap, maxSize);
  }

  lemma DropUniform(es: seq<Entry<nat>>, z: nat, key: nat)
    requires Uniform(es, z)
    ensures Uniform(Drop(es, key), z)
  {
    assert forall x :: x in Drop(es, key) ==> x in es;
  }

  lemma TakeKeys(d: seq<Entry<nat>>, n: nat, e: Entry<nat>)
    ensures Keys([e] + Take(d, n)) == [e.key] + Take(Keys(d), n)
  {
    assert Keys(Take(d, n)) == Take(Keys(d), n);
  }

  lemma InsertUniform(es: seq<Entry<nat>>, z: nat, maxSize: nat, key: nat)
    requires Uniform(es, z) && z <= maxSize && DistinctKeys(es)
    ensures var r := Insert(es, maxSize, Entry(key, z, key)); Uniform(r, z) && DistinctKeys(r)
  {
    InsertKeepsBudget(es, maxSize, Entry(key, z, key));
  }

  // The relation a trace keeps between the smaller list a and the larger list b.

  ghost predicate Included(a: seq<nat>, b: seq<nat>, kept: set<nat>, capA: nat, capB: nat) {
    && Distinct(b)
    && a == Keep(b, kept)
    && |a| <= capA && |b| <= capB
    && (|a| == capA || a == b)
  }

  lemma PushFront(b: seq<nat>, k: nat, kept: set<nat>)
    requires k !in b
    ensures Keep([k] + b, kept + {k}) == [k] + Keep(b, kept)
  {
    KeepConcat([k], b, kept + {k});
    KeepSame(b, kept, kept + {k});
    assert Keep([k][..0], kept + {k}) == [];
  }

  /** Taking the key k out of both lists. */
  lemma MinusIncluded(a: seq<nat>, b: seq<nat>, kept: set<nat>, k: nat)
    requires Distinct(b) && a == Keep(b, kept)
    ensures Minus(a, k) == Keep(Minus(b, k), kept)
    ensures Distinct(Minus(b, k)) && k !in Minus(b, k) && k !in Minus(a, k)
    ensures k in a ==> k in b
    ensures |Minus(a, k)| == |a| - (if k in a then 1 else 0)
    ensures |Minus(b, k)| == |b| - (if k in b then 1 else 0)
    ensures k !in a ==> Minus(a, k) == a
    ensures k !in b ==> Minus(b, k) == b
  {
    KeepElements(b, kept);
    KeepDistinct(b, kept);
    MinusDistinct(a, k);
    MinusDistinct(b, k);
    MinusElements(a, k);
    MinusElements(b, k);
    MinusKeep(b, kept, k);
  }

  lemma DistinctPush(k: nat, b: seq<nat>)
    requires Distinct(b) && k !in b
    ensures Distinct([k] + b)
  {
  }

  lemma GetIncluded(a: seq<nat>, b: seq<nat>, kept: set<nat>, capA: nat, capB: nat, k: nat) returns (kept': set<nat>)
    requires Included(a, b, kept, capA, capB)
    ensures Included(if k in a then [k] + Minus(a, k) else a, if k in b then [k] + Minus(b, k) else b,
                     kept', capA, capB)
  {
    MinusIncluded(a, b, kept, k);
    DistinctPush(k, Minus(b, k));
    if k in a {
      PushFront(Minus(b, k), k, kept);
      kept' := kept + {k};
    } else {
      kept' := kept - {k};
      MinusKeep(b, kept, k);
      if k in b {
        KeepConcat([k], Minus(b, k), kept');
        KeepSame(Minus(b, k), kept, kept');
        assert Keep([k], kept') == [];
      }
    }
  }

  /** The insertion's eviction: the smaller list, when full, loses its last entry;
      the larger one loses at most its own last entry. */
  lemma CutIncluded(a: seq<nat>, b: seq<nat>, kept: set<nat>, capB: nat) returns (kept': set<nat>)
    requires Distinct(b) && a == Keep(b, kept) && a != [] && |b| <= capB + 1
    ensures a[..|a| - 1] == Keep(Take(b, capB), kept')
  {
    var e := a[|a| - 1];
    KeepDistinct(b, kept);
    MinusAt(a, |a| - 1);
    assert a[|a|..] == [];
    MinusKeep(b, kept, e);
    kept' := kept - {e};
    if |b| == capB + 1 {
      assert b[|b| - 1] !in kept';
      assert Keep(b, kept') == Keep(Take(b, capB), kept');
    }
  }

  lemma PrefixKept(b: seq<nat>, m: nat)
    requires m <= |b| && Distinct(b)
    ensures b[..m] == Keep(b, set x | x in b[..m])
  {
    var p, q := b[..m], b[m..];
    var kept := set x | x in p;
    assert b == p + q;
    KeepConcat(p, q, kept);
    KeepAll(p, kept);
    KeepNone(q, kept);
  }

  lemma KeepNone(b: seq<nat>, kept: set<nat>)
    requires forall x :: x in b ==> x !in kept
    ensures Keep(b, kept) == []
  {
    KeepElements(b, kept);
  }

  lemma EvictIncluded(a: seq<nat>, b: seq<nat>, kept: set<nat>, capA: nat, capB: nat) returns (kept': set<nat>)
    requires Distinct(b) && a == Keep(b, kept) && capA <= capB && |a| <= capA + 1 && |b| <= capB + 1
    requires a == b || |a| == capA + 1 || (|a| == capA && |b| <= capB)
    ensures Take(a, capA) == Keep(Take(b, capB), kept')
  {
    if a == b {
      var tb := Take(b, capB);
      PrefixKept(tb, |Take(a, capA)|);
      kept' := set x | x in tb[..|Take(a, capA)|];
    } else if |a| == capA + 1 {
      kept' := CutIncluded(a, b, kept, capB);
    } else {
      kept' := kept;
    }
  }

  lemma PutIncluded(a: seq<nat>, b: seq<nat>, kept: set<nat>, capA: nat, capB: nat, k: nat) returns (kept': set<nat>)
    requires Included(a, b, kept, capA, capB) && 0 < capA <= capB
    ensures Included([k] + Take(Minus(a, k), capA - 1), [k] + Take(Minus(b, k), capB - 1), kept', capA, capB)
  {
    MinusIncluded(a, b, kept, k);
    var cut := EvictIncluded(Minus(a, k), Minus(b, k), kept, capA - 1, capB - 1);
    TakeIncluded(Minus(a, k), Minus(b, k), cut, capA - 1, capB - 1);
    kept' := PushIncluded(Take(Minus(a, k), capA - 1), Take(Minus(b, k), capB - 1), cut, capA, capB, k);
  }

  lemma TakeIncluded(a: seq<nat>, b: seq<nat>, cut: set<nat>, capA: nat, capB: nat)
    requires Distinct(b) && capA <= capB && Take(a, capA) == Keep(Take(b, capB), cut)
    requires |a| >= capA || a == b
    ensures Included(Take(a, capA), Take(b, capB), cut, capA, capB)
    ensures forall x :: x in Take(b, capB) ==> x in b
  {
  }

  lemma PushIncluded(ta: seq<nat>, tb: seq<nat>, cut: set<nat>, capA: nat, capB: nat, k: nat) returns (kept: set<nat>)
    requires 0 < capA <= capB && Included(ta, tb, cut, capA - 1, capB - 1) && k !in tb
    ensures Included([k] + ta, [k] + tb, kept, capA, capB)
  {
    DistinctPush(k, tb);
    PushFront(tb, k, cut);
    kept := cut + {k};
  }

  ghost predicate Related(a: seq<Entry<nat>>, b: seq<Entry<nat>>, kept: set<nat>, z: nat, capA: nat, capB: nat) {
    && Uniform(a, z) && Uniform(b, z) && DistinctKeys(a) && DistinctKeys(b)
    && Included(Keys(a), Keys(b), kept, capA, capB)
  }

  lemma TouchRelated(es: seq<Entry<nat>>, z: nat, key: nat)
    requires Uniform(es, z) && DistinctKeys(es)
    ensures Uniform(Touch(es, key), z) && DistinctKeys(Touch(es, key))
  {
    var i := Find(es, key);
    if i < |es| {
      DropFacts(es, key);
      assert Touch(es, key) == [es[i]] + Drop(es, key);
      PushUniform(es, es[i], Drop(es, key), z);
    }
  }

  lemma PushUniform(es: seq<Entry<nat>>, e: Entry<nat>, d: seq<Entry<nat>>, z: nat)
    requires Uniform(es, z) && DistinctKeys(d) && e in es && forall x :: x in d ==> x in es && x.key != e.key
    ensures Uniform([e] + d, z) && DistinctKeys([e] + d)
  {
    assert forall i :: 1 <= i < |[e] + d| ==> ([e] + d)[i] == d[i - 1];
    assert forall i :: 0 <= i < |d| ==> d[i] in d;
  }

  lemma StepRelated(a: seq<Entry<nat>>, b: seq<Entry<nat>>, kept: set<nat>, z: nat, capA: nat, capB: nat,
                    maxA: nat, maxB: nat, x: Access) returns (kept': set<nat>)
    requires Capacity(capA, z, maxA) && Capacity(capB, z, maxB) && capA <= capB
    requires x.Put? ==> x.size == z && z <= maxA && z <= maxB
    requires Related(a, b, kept, z, capA, capB)
    ensures Related(Apply(a, maxA, x), Apply(b, maxB, x), kept', z, capA, capB)
  {
    if x.Get? {
      DropKeys(a, x.key);
      DropKeys(b, x.key);
      TouchRelated(a, z, x.key);
      TouchRelated(b, z, x.key);
      kept' := GetIncluded(Keys(a), Keys(b), kept, capA, capB, x.key);
    } else {
      InsertKeys(a, z, capA, maxA, x.key);
      InsertKeys(b, z, capB, maxB, x.key);
      InsertUniform(a, z, maxA, x.key);
      InsertUniform(b, z, maxB, x.key);
      kept' := PutIncluded(Keys(a), Keys(b), kept, capA, capB, x.key);
    }
  }

  lemma {:induction false} TraceRelated(maxA: nat, maxB: nat, z: nat, capA: nat, capB: nat, trace: seq<Access>)
    returns (kept: set<nat>)
    requires Capacity(capA, z, maxA) && Capacity(capB, z, maxB) && capA <= capB
    requires Fits(maxA, trace) && Fits(maxB, trace)
    requires forall i :: 0 <= i < |trace| && trace[i].Put? ==> trace[i].size == z
    ensures Related(After(maxA, trace), After(maxB, trace), kept, z, capA, capB)
  {
    if trace == [] {
      kept := {};
    } else {
      var t, x := trace[..|trace| - 1], trace[|trace| - 1];
      var k := TraceRelated(maxA, maxB, z, capA, capB, t);
      kept := StepRelated(After(maxA, t), After(maxB, t), k, z, capA, capB, maxA, maxB, x);
    }
  }

  /** For one element size, any trace of lookups and inserts leaves the list of the
      partition with the smaller budget a subsequence of the other's, so every key the
      smaller one holds the larger one holds too. */
  lemma LargerPartitionIncludesSmaller(maxA: nat, maxB: nat, z: nat, trace: seq<Access>)
    requires 0 < z <= maxA <= maxB
    requires forall i :: 0 <= i < |trace| && trace[i].Put? ==> trace[i].size == z
    ensures Subseq(Keys(After(maxA, trace)), Keys(After(maxB, trace)))
    ensures forall key :: key in Keys(After(maxA, trace)) ==> key in Keys(After(maxB, trace))
  {
    var capA, capB := Capacities(maxA, maxB, z);
    var kept := TraceRelated(maxA, maxB, z, capA, capB, trace);
    KeepElements(Keys(After(maxB, trace)), kept);
  }

  lemma Capacities(maxA: nat, maxB: nat, z: nat) returns (capA: nat, capB: nat)
    requires 0 < z <= maxA <= maxB
    ensures Capacity(capA, z, maxA) && Capacity(capB, z, maxB) && capA <= capB
  {
    CapacityOf(maxA, z);
    CapacityOf(maxB, z);
    capA, capB := maxA / z, maxB / z;
    if capA > capB { MulMono(capB + 1, capA, z); }
  }

  lemma CapacityOf(maxSize: nat, z: nat)
    requires 0 < z <= maxSize
    ensures Capacity(maxSize / z, z, maxSize)
  {
    assert maxSize == z * (maxSize / z) + maxSize % z;
    assert maxSize / z * z == z * (maxSize / z);
  }

  // With unequal sizes inclusion fails.

  lemma TotalTwo(x: Entry<nat>, y: Entry<nat>)
    ensures Total([x]) == x.size && Total([x, y]) == x.size + y.size
  {
    assert [x][..0] == [] && [x, y][..1] == [x];
  }

  lemma Next(maxSize: nat, t: seq<Access>, x: Access)
    requires Fits(maxSize, t) && (x.Put? ==> x.size <= maxSize)
    ensures Fits(maxSize, t + [x]) && After(maxSize, t + [x]) == Apply(After(maxSize, t), maxSize, x)
  {
    assert (t + [x])[..|t|] == t;
  }

  /** A put of a new key into a list of one entry, and into a list of two. */
  lemma PutSecond(maxSize: nat, e: Entry<nat>, x: Entry<nat>)
    requires e.key != x.key && e.size <= maxSize
    ensures Insert([x], maxSize, e) == if x.size + e.size <= maxSize then [e, x] else [e]
  {
    TotalTwo(x, x);
    var room := maxSize - e.size;
    assert Drop([x], e.key) == [x];
    assert [x][..0] == [];
    assert Evict<nat>([], room) == [];
    assert Evict([x], room) == if x.size <= room then [x] else [];
    assert [e] + [x] == [e, x] && [e] + [] == [e];
  }

  lemma PutThird(maxSize: nat, e: Entry<nat>, x: Entry<nat>, y: Entry<nat>)
    requires e.key != x.key && e.key != y.key && x.size + e.size <= maxSize < x.size + y.size + e.size
    ensures Insert([x, y], maxSize, e) == [e, x]
  {
    TotalTwo(x, y);
    assert [x, y][1..] == [y] && [x, y][..1] == [x];
    var room := maxSize - e.size;
    assert Find([y], e.key) == 1 && Find([x, y], e.key) == 2;
    assert Drop([x, y], e.key) == [x, y];
    assert Evict([x], room) == [x];
    assert Evict([x, y], room) == [x];
    assert [e] + [x] == [e, x];
  }

  lemma FirstPut(maxSize: nat, e: Entry<nat>)
    requires e.size <= maxSize
    ensures Insert([], maxSize, e) == [e]
  {
  }

  lemma GetFirst(x: Entry<nat>, y: Entry<nat>)
    requires x.key != y.key
    ensures Touch([x, y], y.key) == [y, x] && Touch([x], y.key) == [x]
  {
    assert [x, y][1..] == [y] && Find([x, y], y.key) == 1 && Find([x], y.key) == 1;
  }

  function Steps(a: nat, b: nat, k: nat): seq<Access>
    requires k <= 4
  {
    [Put(2, b), Put(1, a), Get(2), Put(3, a)][..k]
  }

  lemma NextStep(maxSize: nat, a: nat, b: nat, k: nat)
    requires k < 4 && a <= maxSize && b <= maxSize && Fits(maxSize, Steps(a, b, k))
    ensures Fits(maxSize, Steps(a, b, k + 1))
    ensures After(maxSize, Steps(a, b, k + 1)) == Apply(After(maxSize, Steps(a, b, k)), maxSize, Steps(a, b, 4)[k])
  {
    Next(maxSize, Steps(a, b, k), Steps(a, b, 4)[k]);
    assert Steps(a, b, k + 1) == Steps(a, b, k) + [Steps(a, b, 4)[k]];
  }

  lemma AllSteps(maxSize: nat, a: nat, b: nat)
    requires a <= maxSize && b <= maxSize
    ensures Fits(maxSize, Steps(a, b, 4))
    ensures After(maxSize, Steps(a, b, 4))
            == Apply(Apply(Apply(Apply([], maxSize, Put(2, b)), maxSize, Put(1, a)), maxSize, Get(2)),
                     maxSize, Put(3, a))
  {
    assert Steps(a, b, 0) == [];
    NextStep(maxSize, a, b, 0);
    NextStep(maxSize, a, b, 1);
    NextStep(maxSize, a, b, 2);
    NextStep(maxSize, a, b, 3);
  }

  lemma KeptBySmall(small: nat, a: nat, b: nat)
    requires 0 < a < b <= small < a + b && 2 * a <= small
    ensures Fits(small, Steps(a, b, 4)) && 1 in Keys(After(small, Steps(a, b, 4)))
  {
    var x, y, z := Entry(1, a, 1), Entry(2, b, 2), Entry(3, a, 3);
    AllSteps(small, a, b);
    FirstPut(small, y);
    PutSecond(small, x, y);
    GetFirst(x, y);
    PutSecond(small, z, x);
    assert Keys([z, x])[1] == 1;
  }

  lemma LostByLarge(large: nat, a: nat, b: nat)
    requires 0 < a < b && large == a + b
    ensures Fits(large, Steps(a, b, 4)) && 1 !in Keys(After(large, Steps(a, b, 4)))
  {
    var x, y, z := Entry(1, a, 1), Entry(2, b, 2), Entry(3, a, 3);
    AllSteps(large, a, b);
    FirstPut(large, y);
    PutSecond(large, x, y);
    GetFirst(x, y);
    PutThird(large, z, y, x);
  }

  /** Any two sizes break it: a lookup that hits only in the larger partition brings the
      larger element forward there, and the next insert then pushes out an element that
      the smaller partition keeps. */
  lemma TwoSizesBreakInclusion(a: nat, b: nat) returns (small: nat, large: nat, trace: seq<Access>)
    requires 0 < a < b
    ensures small <= large && Fits(small, trace) && Fits(large, trace)
    ensures forall i :: 0 <= i < |trace| && trace[i].Put? ==> trace[i].size == a || trace[i].size == b
    ensures 1 in Keys(After(small, trace)) && 1 !in Keys(After(large, trace))
  {
    small, large, trace := if b > 2 * a then b else 2 * a, a + b, Steps(a, b, 4);
    KeptBySmall(small, a, b);
    LostByLarge(large, a, b);
  }

  lemma {:induction false} SubseqMembers(a: seq<nat>, b: seq<nat>, x: nat)
    requires Subseq(a, b) && x in a
    ensures x in b
  {
    var m, n := |a| - 1, |b| - 1;
    assert x in b[..n] ==> x in b;
    if a[m] == b[n] && Subseq(a[..m], b[..n]) {
      if x != a[m] { SubseqMembers(a[..m], b[..n], x); }
    } else {
      SubseqMembers(a, b[..n], x);
    }
  }

  lemma {:induction false} NoPutsLeaveNothing(maxSize: nat, trace: seq<Access>)
    requires Fits(maxSize, trace) && forall i :: 0 <= i < |trace| ==> trace[i].Get?
    ensures After(maxSize, trace) == []
  {
    if trace != [] { NoPutsLeaveNothing(maxSize, trace[..|trace| - 1]); }
  }

  ghost predicate SizesIn(trace: seq<Access>, sizes: iset<nat>) {
    forall i :: 0 <= i < |trace| && trace[i].Put? ==> trace[i].size in sizes
  }

  /** The smaller partition's list after the trace is a subsequence of the larger one's. */
  ghost predicate Includes(small: nat, large: nat, trace: seq<Access>) {
    Fits(small, trace) && Fits(large, trace) ==> Subseq(Keys(After(small, trace)), Keys(After(large, trace)))
  }

  lemma OneSizeIncludes(sizes: iset<nat>, small: nat, large: nat, trace: seq<Access>)
    requires forall z :: z in sizes ==> z > 0
    requires forall y, z :: y in sizes && z in sizes ==> y == z
    requires small <= large && SizesIn(trace, sizes)
    ensures Includes(small, large, trace)
  {
    if Fits(small, trace) && Fits(large, trace) {
      if i :| 0 <= i < |trace| && trace[i].Put? {
        LargerPartitionIncludesSmaller(small, large, trace[i].size, trace);
      } else {
        NoPutsLeaveNothing(small, trace);
      }
    }
  }

  /** For any set of element sizes: every larger partition includes every smaller one after
      every trace of such elements, if and only if there is at most one size. */
  lemma InclusionIffOneSize(sizes: iset<nat>)
    requires forall z :: z in sizes ==> z > 0
    ensures (forall small, large, trace :: small <= large && SizesIn(trace, sizes) ==> Includes(small, large, trace))
            <==> (forall y, z :: y in sizes && z in sizes ==> y == z)
  {
    if forall y, z :: y in sizes && z in sizes ==> y == z {
      forall small: nat, large: nat, trace | small <= large && SizesIn(trace, sizes)
        ensures Includes(small, large, trace)
      {
        OneSizeIncludes(sizes, small, large, trace);
      }
    } else {
      var y, z :| y in sizes && z in sizes && y != z;
      var small, large, trace := TwoSizesBreakInclusion(if y < z then y else z, if y < z then z else y);
      assert SizesIn(trace, sizes);
      if Includes(small, large, trace) {
        SubseqMembers(Keys(After(small, trace)), Keys(After(large, trace)), 1);
      }
      assert !Includes(small, large, trace);
    }
  }
}
