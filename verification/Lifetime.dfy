/** Element lifetime inside one partition: every request keeps PartOk, whichever of
    the two reference-count schemes is in use, and the two schemes give the same
    hits, the same table and free the same elements at the same request. */
module Lifetime {
  import opened Basics
  import opened Lru
  import opened Elements

  /** What the callers owe: references are given back only once, and sizes fit. */
  ghost predicate Permitted(p: Part, T: multiset<Answer>, op: Op) {
    match op
    case Lookup(_) => true
    case Insert(_, size) => RoundedSize(size) <= p.maxSize
    case Release(r) => r.Ref? && r in T
  }

  /** The reply words outside the table after a request; NULLs count for nothing. */
  ghost function Refs(T: multiset<Answer>, op: Op, a: Option<Answer>): multiset<Answer> {
    (if op.Release? then T - multiset{op.ref} else T) + (if a.Some? then multiset{a.value} else multiset{})
  }

  lemma TableLetsGo(sch: Scheme, p: Part, tab: set<Id>, T: multiset<Answer>, id: Id)
    requires CountsOk(sch, p.elems, p.next, tab, T) && id in tab
    ensures var q := PutBack(sch, p, id, false);
            && q == p.(elems := q.elems) && CountsOk(sch, q.elems, p.next, tab - {id}, T)
            && (forall i :: i in q.elems ==> i in p.elems && q.elems[i].key == p.elems[i].key)
  {
    assert IdOk(sch, p.elems, p.next, tab, T, id);
    var q := PutBack(sch, p, id, false);
    forall i ensures IdOk(sch, q.elems, p.next, tab - {id}, T, i) {
      assert IdOk(sch, p.elems, p.next, tab, T, i);
    }
  }

  lemma HolderLetsGo(sch: Scheme, p: Part, tab: set<Id>, T: multiset<Answer>, id: Id, hold: Hold)
    requires CountsOk(sch, p.elems, p.next, tab, T) && Ref(id, hold) in T
    ensures var q := PutBack(sch, p, id, hold == Inserter);
            && q == p.(elems := q.elems) && CountsOk(sch, q.elems, p.next, tab, T - multiset{Ref(id, hold)})
            && (forall i :: i in q.elems ==> i in p.elems && q.elems[i].key == p.elems[i].key)
  {
    assert IdOk(sch, p.elems, p.next, tab, T, id);
    var q := PutBack(sch, p, id, hold == Inserter);
    forall i ensures IdOk(sch, q.elems, p.next, tab, T - multiset{Ref(id, hold)}, i) {
      assert IdOk(sch, p.elems, p.next, tab, T, i);
    }
  }

  lemma WithoutDistinct(es: seq<Entry<Id>>, i: nat)
    requires i < |es| && DistinctElems(es) && DistinctKeys(es)
    ensures DistinctElems(Without(es, i)) && DistinctKeys(Without(es, i))
    ensures forall x :: x in Without(es, i) ==> x in es && x.elem != es[i].elem && x.key != es[i].key
  {
    var w := Without(es, i);
    assert forall j :: 0 <= j < |w| ==> w[j] == es[if j < i then j else j + 1];
  }

  lemma WithoutMembers(es: seq<Entry<Id>>, i: nat)
    requires i < |es|
    ensures forall x :: x in es ==> x == es[i] || x in Without(es, i)
  {
    var w := Without(es, i);
    assert forall j :: 0 <= j < |es| && j != i ==> es[j] == w[if j < i then j else j - 1];
  }

  lemma WithoutIds(es: seq<Entry<Id>>, i: nat)
    requires i < |es| && DistinctElems(es) && DistinctKeys(es)
    ensures Ids(Without(es, i)) == Ids(es) - {es[i].elem}
  {
    WithoutDistinct(es, i);
    WithoutMembers(es, i);
  }

  lemma RemoveOk(sch: Scheme, p: Part, T: multiset<Answer>, i: nat)
    requires PartOk(sch, p, T) && i < |p.lru|
    ensures PartOk(sch, Remove(sch, p, i), T)
    ensures Remove(sch, p, i) == p.(lru := Without(p.lru, i), elems := Remove(sch, p, i).elems)
  {
    WithoutIds(p.lru, i);
    WithoutDistinct(p.lru, i);
    TotalWithout(p.lru, i);
    TableLetsGo(sch, p.(lru := Without(p.lru, i)), Ids(p.lru), T, p.lru[i].elem);
    var q := Remove(sch, p, i);
    forall j | 0 <= j < |q.lru| ensures q.lru[j].elem in q.elems && q.elems[q.lru[j].elem].key == q.lru[j].key {
      assert q.lru[j] in q.lru;
      assert IdOk(sch, q.elems, q.next, Ids(q.lru), T, q.lru[j].elem);
    }
  }

  lemma {:induction false} MakeRoomOk(sch: Scheme, p: Part, T: multiset<Answer>, room: nat)
    requires PartOk(sch, p, T)
    ensures var q := MakeRoom(sch, p, room);
            PartOk(sch, q, T) && q == p.(lru := Evict(p.lru, room), elems := q.elems) && Total(q.lru) <= room
    decreases |p.lru|
  {
    if Total(p.lru) > room {
      var last := |p.lru| - 1;
      RemoveOk(sch, p, T, last);
      assert Without(p.lru, last) == p.lru[..last];
      MakeRoomOk(sch, Remove(sch, p, last), T, room);
    }
  }

  lemma DropOldOk(sch: Scheme, p: Part, T: multiset<Answer>, key: nat)
    requires PartOk(sch, p, T)
    ensures var q := DropOld(sch, p, key);
            PartOk(sch, q, T) && q == p.(lru := Drop(p.lru, key), elems := q.elems)
  {
    if Find(p.lru, key) < |p.lru| { RemoveOk(sch, p, T, Find(p.lru, key)); }
  }

  lemma Cons(e: Entry<Id>, es: seq<Entry<Id>>)
    requires DistinctElems(es) && DistinctKeys(es)
    requires forall x :: x in es ==> x.key != e.key && x.elem != e.elem
    ensures DistinctElems([e] + es) && DistinctKeys([e] + es)
    ensures Total([e] + es) == e.size + Total(es)
    ensures Ids([e] + es) == Ids(es) + {e.elem}
  {
    TotalAround([], e, es);
    assert [e] + ([] + es) == [e] + es;
    ConsIds(e, es);
  }

  lemma ConsIds(e: Entry<Id>, es: seq<Entry<Id>>)
    ensures Ids([e] + es) == Ids(es) + {e.elem}
  {
    assert forall x :: x in [e] + es <==> x == e || x in es;
  }

  lemma AddCounts(sch: Scheme, elems: map<Id, Elem>, next: Id, tab: set<Id>, T: multiset<Answer>, key: nat)
    requires CountsOk(sch, elems, next, tab, T)
    ensures CountsOk(sch, elems[next := Elem(key, if sch == Messages then 2 else 1, true)], next + 1, tab + {next},
                     T + multiset{Ref(next, Inserter)})
  {
    var U := T + multiset{Ref(next, Inserter)};
    assert IdOk(sch, elems, next, tab, T, next);
    var elems' := elems[next := Elem(key, if sch == Messages then 2 else 1, true)];
    var tab', next' := tab + {next}, next + 1;
    forall i ensures IdOk(sch, elems', next', tab', U, i) {
      assert IdOk(sch, elems, next, tab, T, i);
    }
  }

  lemma AddOk(sch: Scheme, p: Part, T: multiset<Answer>, key: nat, size: nat)
    requires PartOk(sch, p, T) && Total(p.lru) + size <= p.maxSize
    requires forall x :: x in p.lru ==> x.key != key
    ensures PartOk(sch, Add(sch, p, key, size), T + multiset{Ref(p.next, Inserter)})
  {
    assert IdOk(sch, p.elems, p.next, Ids(p.lru), T, p.next);
    assert forall x :: x in p.lru ==> x.elem in Ids(p.lru);
    Cons(Entry(key, size, p.next), p.lru);
    AddCounts(sch, p.elems, p.next, Ids(p.lru), T, key);
  }

  lemma RoomMade(sch: Scheme, p: Part, T: multiset<Answer>, key: nat, room: nat)
    requires PartOk(sch, p, T)
    ensures var q := MakeRoom(sch, DropOld(sch, p, key), room);
            && PartOk(sch, q, T) && Total(q.lru) <= room
            && q == p.(lru := Evict(Drop(p.lru, key), room), elems := q.elems)
            && (forall x :: x in q.lru ==> x.key != key)
  {
    DropOldOk(sch, p, T, key);
    MakeRoomOk(sch, DropOld(sch, p, key), T, room);
    DropFacts(p.lru, key);
    EvictIsLongestFittingPrefix(Drop(p.lru, key), room);
  }

  lemma InsertOk(sch: Scheme, p: Part, T: multiset<Answer>, key: nat, size: nat)
    requires PartOk(sch, p, T) && RoundedSize(size) <= p.maxSize
    ensures var (q, a) := ExecInsert(sch, p, key, size);
            && a == Ref(p.next, Inserter)
            && PartOk(sch, q, T + multiset{a})
            && q == Part(p.maxSize, Lru.Insert(p.lru, p.maxSize, Entry(key, RoundedSize(size), p.next)),
                         q.elems, p.next + 1, false)
            && p.next in q.elems && q.elems[p.next].key == key
            && RoundsTo(size, RoundedSize(size)) && Total(q.lru) <= p.maxSize
  {
    RoundedIff(size, RoundedSize(size));
    InsertIs(sch, p, T, key, size);
  }

  lemma InsertIs(sch: Scheme, p: Part, T: multiset<Answer>, key: nat, size: nat)
    requires PartOk(sch, p, T) && RoundedSize(size) <= p.maxSize
    ensures var (q, a) := ExecInsert(sch, p, key, size);
            && a == Ref(p.next, Inserter)
            && PartOk(sch, q, T + multiset{a})
            && q == Part(p.maxSize, Lru.Insert(p.lru, p.maxSize, Entry(key, RoundedSize(size), p.next)),
                         q.elems, p.next + 1, false)
            && p.next in q.elems && q.elems[p.next].key == key
  {
    var z := RoundedSize(size);
    RoomMade(sch, p, T, key, p.maxSize - z);
    AddOk(sch, MakeRoom(sch, DropOld(sch, p, key), p.maxSize - z), T, key, z);
  }

  lemma TouchIds(es: seq<Entry<Id>>, i: nat)
    requires i < |es| && DistinctElems(es) && DistinctKeys(es)
    ensures var t := [es[i]] + Without(es, i);
            Ids(t) == Ids(es) && DistinctElems(t) && DistinctKeys(t) && Total(t) == Total(es)
              && (forall x :: x in t ==> x in es)
  {
    WithoutDistinct(es, i);
    WithoutIds(es, i);
    TotalWithout(es, i);
    Cons(es[i], Without(es, i));
    assert es[i] in es;
  }

  lemma TouchOk(sch: Scheme, p: Part, T: multiset<Answer>, key: nat)
    requires PartOk(sch, p, T)
    ensures PartOk(sch, p.(lru := Touch(p.lru, key)), T)
  {
    var i := Find(p.lru, key);
    if i < |p.lru| { TouchIds(p.lru, i); }
  }

  lemma NewReader(sch: Scheme, p: Part, T: multiset<Answer>, id: Id)
    requires PartOk(sch, p, T) && id in Ids(p.lru) && id in p.elems && !p.elems[id].notReady
    ensures PartOk(sch, p.(elems := p.elems[id := p.elems[id].(count := p.elems[id].count + 1)]),
                   T + multiset{Ref(id, Reader)})
  {
    var U := T + multiset{Ref(id, Reader)};
    var elems' := p.elems[id := p.elems[id].(count := p.elems[id].count + 1)];
    forall i ensures IdOk(sch, elems', p.next, Ids(p.lru), U, i) {
      assert IdOk(sch, p.elems, p.next, Ids(p.lru), T, i);
    }
  }

  lemma ReadyInTable(sch: Scheme, p: Part, T: multiset<Answer>, i: nat)
    requires PartOk(sch, p, T) && i < |p.lru|
    ensures var id := p.lru[i].elem;
            id in p.elems && id in Ids(p.lru) && (p.elems[id].notReady <==> T[Ref(id, Inserter)] == 1)
            && T[Ref(id, Inserter)] <= 1
  {
    assert p.lru[i] in p.lru;
    assert IdOk(sch, p.elems, p.next, Ids(p.lru), T, p.lru[i].elem);
  }

  /** A hit is an element in the table whose inserter holds no reference any more. */
  lemma LookupAnswer(sch: Scheme, p: Part, T: multiset<Answer>, key: nat)
    requires PartOk(sch, p, T)
    ensures var (q, a) := ExecLookup(p, key);
            && q == p.(lru := Touch(p.lru, key), elems := q.elems)
            && var i := Find(p.lru, key);
               && (a == if i < |p.lru| && T[Ref(p.lru[i].elem, Inserter)] == 0 then Ref(p.lru[i].elem, Reader)
                        else Null)
               && (a.Ref? ==> a.id in p.elems && p.elems[a.id].key == key)
  {
    var i := Find(p.lru, key);
    if i < |p.lru| { ReadyInTable(sch, p, T, i); }
  }

  lemma NullIsNoReference(sch: Scheme, p: Part, T: multiset<Answer>)
    requires PartOk(sch, p, T)
    ensures PartOk(sch, p, T + multiset{Null})
  {
    var U := T + multiset{Null};
    forall i ensures IdOk(sch, p.elems, p.next, Ids(p.lru), U, i) {
      assert IdOk(sch, p.elems, p.next, Ids(p.lru), T, i);
    }
  }

  lemma LookupOk(sch: Scheme, p: Part, T: multiset<Answer>, key: nat)
    requires PartOk(sch, p, T)
    ensures var (q, a) := ExecLookup(p, key); PartOk(sch, q, Refs(T, Lookup(key), Some(a)))
  {
    var i := Find(p.lru, key);
    TouchOk(sch, p, T, key);
    var t := p.(lru := Touch(p.lru, key));
    var (q, a) := ExecLookup(p, key);
    if i < |p.lru| {
      ReadyInTable(sch, p, T, i);
      TouchIds(p.lru, i);
      if a.Ref? { NewReader(sch, t, T, a.id); }
    }
    if a.Null? { NullIsNoReference(sch, q, T); }
  }

  lemma ReleaseOk(sch: Scheme, p: Part, T: multiset<Answer>, id: Id, hold: Hold)
    requires PartOk(sch, p, T) && Ref(id, hold) in T
    ensures var q := PutBack(sch, p, id, hold == Inserter);
            PartOk(sch, q, T - multiset{Ref(id, hold)}) && q == p.(elems := q.elems)
  {
    HolderLetsGo(sch, p, Ids(p.lru), T, id, hold);
    var q := PutBack(sch, p, id, hold == Inserter);
    forall j | 0 <= j < |q.lru| ensures q.lru[j].elem in q.elems && q.elems[q.lru[j].elem].key == q.lru[j].key {
      assert q.lru[j].elem in Ids(q.lru);
      assert IdOk(sch, q.elems, q.next, Ids(q.lru), T - multiset{Ref(id, hold)}, q.lru[j].elem);
    }
  }

  /** Every permitted request keeps PartOk: no freed element is touched, no count goes
      below zero, no assertion fails, and each element is freed exactly when the last of
      the table and its references lets go of it. */
  lemma ExecOk(sch: Scheme, p: Part, T: multiset<Answer>, op: Op)
    requires PartOk(sch, p, T) && Permitted(p, T, op)
    ensures var (q, a) := Exec(sch, p, op);
            PartOk(sch, q, Refs(T, op, a)) && q.maxSize == p.maxSize && (a.None? <==> op.Release?)
  {
    match op
    case Lookup(key) => LookupOk(sch, p, T, key);
    case Insert(key, size) => InsertOk(sch, p, T, key, size);
    case Release(r) =>
      ReleaseOk(sch, p, T, r.id, r.hold);
      assert Refs(T, op, None) == T - multiset{Ref(r.id, r.hold)};
  }

  // Whole runs of one partition.

  function Answers(sch: Scheme, p: Part, ops: seq<Op>): seq<Option<Answer>> {
    if ops == [] then []
    else Answers(sch, p, ops[..|ops| - 1]) + [Exec(sch, Run(sch, p, ops[..|ops| - 1]), ops[|ops| - 1]).1]
  }

  function Run(sch: Scheme, p: Part, ops: seq<Op>): Part {
    if ops == [] then p else Exec(sch, Run(sch, p, ops[..|ops| - 1]), ops[|ops| - 1]).0
  }

  lemma RunSnocAll(sch: Scheme, p: Part, ops: seq<Op>, op: Op)
    ensures Run(sch, p, ops + [op]) == Exec(sch, Run(sch, p, ops), op).0
    ensures Answers(sch, p, ops + [op]) == Answers(sch, p, ops) + [Exec(sch, Run(sch, p, ops), op).1]
  {
    assert (ops + [op])[..|ops + [op]| - 1] == ops;
  }

  ghost function RunRefs(sch: Scheme, p: Part, ops: seq<Op>): multiset<Answer> {
    if ops == [] then multiset{} else
      var init, op := ops[..|ops| - 1], ops[|ops| - 1];
      Refs(RunRefs(sch, p, init), op, Exec(sch, Run(sch, p, init), op).1)
  }

  ghost predicate Disciplined(sch: Scheme, p: Part, ops: seq<Op>) {
    ops == [] || (Disciplined(sch, p, ops[..|ops| - 1])
                  && Permitted(Run(sch, p, ops[..|ops| - 1]), RunRefs(sch, p, ops[..|ops| - 1]), ops[|ops| - 1]))
  }

  /** On a disciplined run PartOk holds throughout. */
  lemma {:induction false} RunOk(sch: Scheme, maxSize: nat, ops: seq<Op>)
    requires Disciplined(sch, Empty(maxSize), ops)
    ensures PartOk(sch, Run(sch, Empty(maxSize), ops), RunRefs(sch, Empty(maxSize), ops))
    ensures Run(sch, Empty(maxSize), ops).maxSize == maxSize
  {
    if ops != [] {
      var init := ops[..|ops| - 1];
      RunOk(sch, maxSize, init);
      ExecOk(sch, Run(sch, Empty(maxSize), init), RunRefs(sch, Empty(maxSize), init), ops[|ops| - 1]);
    }
  }

  lemma InserterOnce(sch: Scheme, p: Part, T: multiset<Answer>, id: Id)
    requires PartOk(sch, p, T)
    ensures T[Ref(id, Inserter)] <= 1 && (T[Ref(id, Inserter)] > 0 ==> id < p.next)
    ensures T[Ref(id, Inserter)] == 0 && id in p.elems ==> !p.elems[id].notReady
  {
    assert IdOk(sch, p.elems, p.next, Ids(p.lru), T, id);
  }

  lemma NextGrows(sch: Scheme, p: Part, T: multiset<Answer>, op: Op)
    requires PartOk(sch, p, T) && Permitted(p, T, op)
    ensures p.next <= Exec(sch, p, op).0.next
    ensures var a := Exec(sch, p, op).1; a.Some? && a.value.Ref? && a.value.hold == Inserter ==> a.value.id >= p.next
  {
    match op
    case Lookup(key) => LookupAnswer(sch, p, T, key);
    case Insert(key, size) => InsertOk(sch, p, T, key, size);
    case Release(r) => ReleaseOk(sch, p, T, r.id, r.hold);
  }

  lemma StaysMarked(sch: Scheme, p: Part, T: multiset<Answer>, op: Op, id: Id)
    requires PartOk(sch, p, T) && Permitted(p, T, op)
    requires op == Release(Ref(id, Inserter)) || (T[Ref(id, Inserter)] == 0 && id < p.next)
    ensures var (q, a) := Exec(sch, p, op); Refs(T, op, a)[Ref(id, Inserter)] == 0 && id < q.next
  {
    InserterOnce(sch, p, T, id);
    NextGrows(sch, p, T, op);
    var a := Exec(sch, p, op).1;
    if a.Some? { assert a.value != Ref(id, Inserter); }
  }

  lemma BeforeLast<T>(s: seq<T>, x: T)
    requires x in s && x != s[|s| - 1]
    ensures x in s[..|s| - 1]
  {
    assert s == s[..|s| - 1] + [s[|s| - 1]];
  }

  /** Once an inserter has given its reference back, nobody is the inserter of that element
      again. */
  lemma {:induction false} MarkedForGood(sch: Scheme, maxSize: nat, ops: seq<Op>, id: Id)
    requires Disciplined(sch, Empty(maxSize), ops) && Release(Ref(id, Inserter)) in ops
    ensures var p0 := Empty(maxSize); RunRefs(sch, p0, ops)[Ref(id, Inserter)] == 0 && id < Run(sch, p0, ops).next
  {
    var p0, init, op := Empty(maxSize), ops[..|ops| - 1], ops[|ops| - 1];
    var p, T := Run(sch, p0, init), RunRefs(sch, p0, init);
    RunOk(sch, maxSize, init);
    if op != Release(Ref(id, Inserter)) {
      BeforeLast(ops, Release(Ref(id, Inserter)));
      MarkedForGood(sch, maxSize, init, id);
    }
    StaysMarked(sch, p, T, op, id);
  }

  /** The release-message scheme and the atomic scheme agree on any run: the same
      answers down to the identity of the elements, the same recency list, and the same
      elements alive after every request. */
  lemma {:induction false} SchemesAgree(maxSize: nat, ops: seq<Op>)
    requires Disciplined(Messages, Empty(maxSize), ops)
    ensures var p := Empty(maxSize);
            && Answers(Messages, p, ops) == Answers(Atomics, p, ops)
            && RunRefs(Messages, p, ops) == RunRefs(Atomics, p, ops)
            && PartOk(Messages, Run(Messages, p, ops), RunRefs(Messages, p, ops))
            && PartOk(Atomics, Run(Atomics, p, ops), RunRefs(Messages, p, ops))
            && Run(Messages, p, ops).lru == Run(Atomics, p, ops).lru
            && Run(Messages, p, ops).elems.Keys == Run(Atomics, p, ops).elems.Keys
            && Run(Messages, p, ops).next == Run(Atomics, p, ops).next
            && Run(Messages, p, ops).maxSize == Run(Atomics, p, ops).maxSize
  {
    var p := Empty(maxSize);
    if ops != [] {
      var init, op := ops[..|ops| - 1], ops[|ops| - 1];
      SchemesAgree(maxSize, init);
      StepAgree(Run(Messages, p, init), Run(Atomics, p, init), RunRefs(Messages, p, init), op);
    }
  }

  ghost predicate Agree(p: Part, q: Part) {
    p.lru == q.lru && p.next == q.next && p.maxSize == q.maxSize && p.elems.Keys == q.elems.Keys
  }

  lemma AgreeOn(p: Part, q: Part, T: multiset<Answer>)
    requires PartOk(Messages, p, T) && PartOk(Atomics, q, T) && p.lru == q.lru && p.next == q.next
             && p.maxSize == q.maxSize
    ensures Agree(p, q)
  {
    forall id ensures id in p.elems <==> id in q.elems {
      assert IdOk(Messages, p.elems, p.next, Ids(p.lru), T, id);
      assert IdOk(Atomics, q.elems, q.next, Ids(q.lru), T, id);
    }
  }

  lemma StepAgree(p: Part, q: Part, T: multiset<Answer>, op: Op)
    requires PartOk(Messages, p, T) && PartOk(Atomics, q, T) && Agree(p, q) && Permitted(p, T, op)
    ensures var x, y := Exec(Messages, p, op), Exec(Atomics, q, op);
            && x.1 == y.1 && Agree(x.0, y.0)
            && PartOk(Messages, x.0, Refs(T, op, x.1)) && PartOk(Atomics, y.0, Refs(T, op, x.1))
  {
    ExecOk(Messages, p, T, op);
    ExecOk(Atomics, q, T, op);
    SameStep(p, q, T, op);
    var x, y := Exec(Messages, p, op), Exec(Atomics, q, op);
    AgreeOn(x.0, y.0, Refs(T, op, x.1));
  }

  lemma SameStep(p: Part, q: Part, T: multiset<Answer>, op: Op)
    requires PartOk(Messages, p, T) && PartOk(Atomics, q, T) && Agree(p, q) && Permitted(p, T, op)
    ensures var x, y := Exec(Messages, p, op), Exec(Atomics, q, op);
            x.1 == y.1 && x.0.lru == y.0.lru && x.0.next == y.0.next && x.0.maxSize == y.0.maxSize
  {
    match op
    case Lookup(key) =>
      LookupAnswer(Messages, p, T, key);
      LookupAnswer(Atomics, q, T, key);
    case Insert(key, size) =>
      InsertOk(Messages, p, T, key, size);
      InsertOk(Atomics, q, T, key, size);
    case Release(r) =>
      ReleaseOk(Messages, p, T, r.id, r.hold);
      ReleaseOk(Atomics, q, T, r.id, r.hold);
  }
}
