/** Elements of one partition: who holds them, when they are freed, and what one
    request does to them.  Both reference-count schemes of smphashtable.c are here. */
module Elements {
  import opened Basics
  import opened Lru

  const HEADER := 64

  type Id = nat

  datatype Hold = Inserter | Reader

  /** A reply word: NULL, or a pointer handed out to an inserter or to a reader. */
  datatype Answer = Null | Ref(id: Id, hold: Hold)

  datatype Op =
    | Lookup(key: nat)
    | Insert(key: nat, size: nat)
    | Release(ref: Answer)

  /** The two uses of ref_count: release messages, or atomic operations. */
  datatype Scheme = Messages | Atomics

  /** A live element.  `notReady` is DATA_READY_MASK, `count` the bits below it. */
  datatype Elem = Elem(key: nat, count: nat, notReady: bool)

  /** A partition.  An id in `elems` has been allocated and not freed; `next` is fresh.
      `fault` records a touch of freed memory, a count below zero or a failed assertion. */
  datatype Part = Part(maxSize: nat, lru: seq<Entry<Id>>, elems: map<Id, Elem>, next: Id, fault: bool)

  function RoundedSize(size: nat): nat {
    (HEADER + size + (CACHELINE - 1)) / CACHELINE * CACHELINE
  }

  /** z is a whole number of cache lines, the fewest that hold the header and the value. */
  predicate RoundsTo(size: nat, z: nat) {
    z % 64 == 0 && 64 + size <= z < 64 + size + 64
  }

  lemma RoundedIff(size: nat, z: nat)
    ensures RoundsTo(size, z) <==> z == RoundedSize(size)
  {
    var lines := (HEADER + size + (CACHELINE - 1)) / CACHELINE;
    assert 64 * lines <= 64 + size + 63 < 64 * lines + 64;
    if RoundsTo(size, z) { assert z == 64 * (z / 64); }
  }

  function Empty(maxSize: nat): Part {
    Part(maxSize, [], map[], 0, false)
  }

  predicate Freed(e: Elem) {
    e.count == 0 && !e.notReady
  }

  /** The inserter gives its reference back: a release message lowers the count and
      clears the flag, atomic_mark_ready only clears the flag. */
  function PutInserter(sch: Scheme, e: Elem): Elem
    requires e.count > 0 || sch == Atomics
  {
    if sch == Messages then e.(count := e.count - 1, notReady := false) else e.(notReady := false)
  }

  /** A reader, or the table, gives its reference back. */
  function PutOther(sch: Scheme, e: Elem): Elem
    requires e.count > 0
  {
    if sch == Messages then e.(count := e.count - 1, notReady := false) else e.(count := e.count - 1)
  }

  function Store(p: Part, id: Id, e: Elem): Part {
    p.(elems := if Freed(e) then map i | i in p.elems && i != id :: p.elems[i] else p.elems[id := e])
  }

  function PutBack(sch: Scheme, p: Part, id: Id, inserter: bool): Part {
    if id !in p.elems || (p.elems[id].count == 0 && !(inserter && sch == Atomics)) then p.(fault := true)
    else Store(p, id, if inserter then PutInserter(sch, p.elems[id]) else PutOther(sch, p.elems[id]))
  }

  /** hash_remove followed by release, for the entry at position i. */
  function Remove(sch: Scheme, p: Part, i: nat): Part
    requires i < |p.lru|
  {
    PutBack(sch, p.(lru := Without(p.lru, i)), p.lru[i].elem, false)
  }

  /** The eviction loop of hash_insert. */
  function MakeRoom(sch: Scheme, p: Part, room: nat): Part
    decreases |p.lru|
  {
    if Total(p.lru) <= room then p else MakeRoom(sch, Remove(sch, p, |p.lru| - 1), room)
  }

  function ExecLookup(p: Part, key: nat): (Part, Answer) {
    var i := Find(p.lru, key);
    if i == |p.lru| then (p, Null)
    else
      var id := p.lru[i].elem;
      var q := p.(lru := Touch(p.lru, key));
      if id !in p.elems then (p.(fault := true), Null)
      else if p.elems[id].notReady then (q, Null)
      else (q.(elems := q.elems[id := q.elems[id].(count := q.elems[id].count + 1)]), Ref(id, Reader))
  }

  function DropOld(sch: Scheme, p: Part, key: nat): Part {
    var i := Find(p.lru, key);
    if i < |p.lru| then Remove(sch, p, i) else p
  }

  function Add(sch: Scheme, p: Part, key: nat, size: nat): Part {
    p.(lru := [Entry(key, size, p.next)] + p.lru,
       elems := p.elems[p.next := Elem(key, if sch == Messages then 2 else 1, true)],
       next := p.next + 1)
  }

  function ExecInsert(sch: Scheme, p: Part, key: nat, size: nat): (Part, Answer) {
    var z := RoundedSize(size);
    if z > p.maxSize then (p.(fault := true), Null)
    else (Add(sch, MakeRoom(sch, DropOld(sch, p, key), p.maxSize - z), key, z), Ref(p.next, Inserter))
  }

  /** One request at the server that owns the partition. */
  function Exec(sch: Scheme, p: Part, op: Op): (Part, Option<Answer>) {
    match op
    case Lookup(key) => var (q, a) := ExecLookup(p, key); (q, Some(a))
    case Insert(key, size) => var (q, a) := ExecInsert(sch, p, key, size); (q, Some(a))
    case Release(Ref(id, hold)) => (PutBack(sch, p, id, hold == Inserter), None)
    case Release(Null) => (p.(fault := true), None)
  }

  // What holds between requests, for a multiset T of references outside the table.

  ghost function Ids(es: seq<Entry<Id>>): set<Id> {
    set x | x in es :: x.elem
  }

  ghost predicate DistinctElems(es: seq<Entry<Id>>) {
    forall i, j :: 0 <= i < j < |es| ==> es[i].elem != es[j].elem
  }

  ghost predicate ElemOk(sch: Scheme, e: Elem, inTable: bool, inserters: nat, readers: nat) {
    && e.count == (if inTable then 1 else 0) + readers + (if sch == Messages then inserters else 0)
    && inserters <= 1
    && (readers > 0 ==> inserters == 0)
    && (e.notReady <==> inserters == 1 && (inTable || sch == Atomics))
  }

  /** An element is live exactly when the table or some reference names it, and its
      count is then the number of those. */
  ghost predicate IdOk(sch: Scheme, elems: map<Id, Elem>, next: Id, tab: set<Id>, T: multiset<Answer>, id: Id) {
    var inserters, readers := T[Ref(id, Inserter)], T[Ref(id, Reader)];
    && (id in elems <==> id in tab || inserters > 0 || readers > 0)
    && (id in elems ==> id < next && ElemOk(sch, elems[id], id in tab, inserters, readers))
  }

  ghost predicate CountsOk(sch: Scheme, elems: map<Id, Elem>, next: Id, tab: set<Id>, T: multiset<Answer>) {
    forall id :: IdOk(sch, elems, next, tab, T, id)
  }

  ghost predicate ListOk(p: Part) {
    && DistinctKeys(p.lru) && DistinctElems(p.lru)
    && Total(p.lru) <= p.maxSize
    && (forall i :: 0 <= i < |p.lru| ==> p.lru[i].elem in p.elems && p.elems[p.lru[i].elem].key == p.lru[i].key)
  }

  ghost predicate PartOk(sch: Scheme, p: Part, T: multiset<Answer>) {
    !p.fault && ListOk(p) && CountsOk(sch, p.elems, p.next, Ids(p.lru), T)
  }
}
