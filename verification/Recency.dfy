/** The order of the LRU list, for elements of any sizes: it is the order of last touch,
    where every lookup of a key in the table counts, ready or not. */
module Recency {
  import opened Lru
  import opened Inclusion

  /** 0 if no access of the trace names the key, otherwise the position of the last one, from 1. */
  function LastTouch(trace: seq<Access>, key: nat): nat {
    if trace == [] then 0
    else if trace[|trace| - 1].key == key then |trace|
    else LastTouch(trace[..|trace| - 1], key)
  }

  /** The size of the last insert of the key. */
  function LastSize(trace: seq<Access>, key: nat): nat {
    if trace == [] then 0
    else
      var x := trace[|trace| - 1];
      if x.Put? && x.key == key then x.size else LastSize(trace[..|trace| - 1], key)
  }

  ghost predicate InOrder(es: seq<Entry<nat>>, trace: seq<Access>) {
    && (forall i, j :: 0 <= i < j < |es| ==> LastTouch(trace, es[i].key) > LastTouch(trace, es[j].key))
    && (forall i :: 0 <= i < |es| ==> es[i].size == LastSize(trace, es[i].key))
  }

  lemma {:induction false} TouchedBefore(trace: seq<Access>, key: nat)
    ensures LastTouch(trace, key) <= |trace|
  {
    if trace != [] { TouchedBefore(trace[..|trace| - 1], key); }
  }

  /** Accesses to another key do not change the order of the entries that stay. */
  lemma StillInOrder(es: seq<Entry<nat>>, trace: seq<Access>)
    requires trace != [] && InOrder(es, trace[..|trace| - 1])
    requires forall e :: e in es ==> e.key != trace[|trace| - 1].key
    ensures InOrder(es, trace)
  {
    forall i | 0 <= i < |es| ensures es[i].key != trace[|trace| - 1].key { assert es[i] in es; }
  }

  lemma FewerInOrder(es: seq<Entry<nat>>, trace: seq<Access>, i: nat)
    requires InOrder(es, trace) && i < |es|
    ensures InOrder(Without(es, i), trace)
  {
    var r := Without(es, i);
    assert forall j :: 0 <= j < |r| ==> r[j] == es[if j < i then j else j + 1];
  }

  lemma PrefixInOrder(es: seq<Entry<nat>>, trace: seq<Access>, k: nat)
    requires InOrder(es, trace) && k <= |es|
    ensures InOrder(es[..k], trace)
  {
  }

  lemma EarlierTouches(es: seq<Entry<nat>>, trace: seq<Access>, key: nat)
    requires trace != [] && trace[|trace| - 1].key == key && forall x :: x in es ==> x.key != key
    ensures LastTouch(trace, key) == |trace|
    ensures forall i :: 0 <= i < |es| ==> LastTouch(trace, es[i].key) < |trace|
  {
    forall i | 0 <= i < |es| ensures LastTouch(trace, es[i].key) < |trace| {
      assert es[i] in es;
      TouchedBefore(trace[..|trace| - 1], es[i].key);
    }
  }

  lemma FirstInOrder(e: Entry<nat>, es: seq<Entry<nat>>, trace: seq<Access>)
    requires trace != [] && InOrder(es, trace[..|trace| - 1])
    requires e.key == trace[|trace| - 1].key && e.size == LastSize(trace, e.key)
    requires forall x :: x in es ==> x.key != e.key
    ensures InOrder([e] + es, trace)
  {
    StillInOrder(es, trace);
    EarlierTouches(es, trace, e.key);
    PushOrder(e, es, trace);
  }

  lemma PushOrder(e: Entry<nat>, es: seq<Entry<nat>>, trace: seq<Access>)
    requires InOrder(es, trace) && e.size == LastSize(trace, e.key)
    requires forall i :: 0 <= i < |es| ==> LastTouch(trace, es[i].key) < LastTouch(trace, e.key)
    ensures InOrder([e] + es, trace)
  {
    var r := [e] + es;
    assert r[0] == e && r[1..] == es;
    assert forall i :: 1 <= i < |r| ==> r[i] == es[i - 1];
  }

  lemma DropInOrder(es: seq<Entry<nat>>, trace: seq<Access>, key: nat)
    requires InOrder(es, trace) && DistinctKeys(es)
    ensures InOrder(Drop(es, key), trace) && DistinctKeys(Drop(es, key))
    ensures forall x :: x in Drop(es, key) ==> x.key != key
  {
    DropFacts(es, key);
    var i := Find(es, key);
    if i < |es| { FewerInOrder(es, trace, i); }
  }

  lemma GetInOrder(es: seq<Entry<nat>>, trace: seq<Access>, key: nat)
    requires trace != [] && trace[|trace| - 1] == Get(key)
    requires InOrder(es, trace[..|trace| - 1]) && DistinctKeys(es)
    ensures InOrder(Touch(es, key), trace) && DistinctKeys(Touch(es, key))
  {
    var i := Find(es, key);
    DropInOrder(es, trace[..|trace| - 1], key);
    if i < |es| {
      FirstInOrder(es[i], Drop(es, key), trace);
    } else {
      StillInOrder(es, trace);
    }
  }

  lemma PutInOrder(es: seq<Entry<nat>>, trace: seq<Access>, maxSize: nat, key: nat, size: nat)
    requires trace != [] && trace[|trace| - 1] == Put(key, size) && size <= maxSize
    requires InOrder(es, trace[..|trace| - 1]) && DistinctKeys(es)
    ensures var r := Insert(es, maxSize, Entry(key, size, key)); InOrder(r, trace) && DistinctKeys(r)
  {
    var e := Entry(key, size, key);
    DropInOrder(es, trace[..|trace| - 1], key);
    var kept := KeptPart(Drop(es, key), trace[..|trace| - 1], maxSize - size, key);
    assert e.size == LastSize(trace, key);
    FirstInOrder(e, kept, trace);
    assert Insert(es, maxSize, e) == [e] + kept;
    InsertDistinct(es, maxSize, e);
  }

  lemma InsertDistinct(es: seq<Entry<nat>>, maxSize: nat, e: Entry<nat>)
    requires DistinctKeys(es) && e.size <= maxSize
    ensures DistinctKeys(Insert(es, maxSize, e))
  {
    InsertKeepsBudget(es, maxSize, e);
  }

  lemma KeptPart(d: seq<Entry<nat>>, trace: seq<Access>, room: nat, key: nat) returns (kept: seq<Entry<nat>>)
    requires InOrder(d, trace) && forall x :: x in d ==> x.key != key
    ensures kept == Evict(d, room) && InOrder(kept, trace) && forall x :: x in kept ==> x.key != key
  {
    kept := Evict(d, room);
    EvictIsLongestFittingPrefix(d, room);
    PrefixInOrder(d, trace, |kept|);
    assert forall x :: x in kept ==> x in d;
  }

  /** After any trace, with elements of any sizes, the LRU list runs from the key touched
      last to the key touched longest ago, each entry with the size of its last insert. */
  lemma {:induction false} ListIsInOrderOfLastTouch(maxSize: nat, trace: seq<Access>)
    requires Fits(maxSize, trace)
    ensures var es := After(maxSize, trace);
            && DistinctKeys(es)
            && (forall i, j :: 0 <= i < j < |es| ==> LastTouch(trace, es[i].key) > LastTouch(trace, es[j].key))
            && (forall i :: 0 <= i < |es| ==> es[i].size == LastSize(trace, es[i].key))
  {
    if trace != [] {
      var t, x := trace[..|trace| - 1], trace[|trace| - 1];
      ListIsInOrderOfLastTouch(maxSize, t);
      match x
      case Get(key) => GetInOrder(After(maxSize, t), trace, key);
      case Put(key, size) => PutInOrder(After(maxSize, t), trace, maxSize, key, size);
    }
  }
}
