/** The locking design under LRU, with its recency list: whatever the threads interleave,
    a locked partition answers and ends up as a sequential run of its requests, the lookups
    and inserts in the order in which the lock was acquired. */
module LockedSerial {
  import opened Basics
  import opened LockedTable
  import Lru
  import E = Elements
  import Lifetime
  import System
  import Safety

  /** A locked partition with its LRU list, and for each thread the size of its insert.
      `log` (requests as they take effect) and `grants` (calls as they get the lock) are
      history. */
  datatype Traced = Traced(
    st: State, lru: seq<Lru.Entry<Id>>, sizes: seq<nat>,
    log: seq<(nat, System.Event)>, grants: seq<(nat, E.Op)>)

  function Begin(nthreads: nat): Traced {
    Traced(LockedTable.Begin(nthreads), [], seq(nthreads, _ => 0), [], [])
  }

  function OpOf(call: Call, size: nat): E.Op {
    match call
    case Lookup(key) => E.Lookup(key)
    case Insert(key) => E.Insert(key, size)
  }

  function WithoutElem(es: seq<Lru.Entry<Id>>, id: Id): seq<Lru.Entry<Id>> {
    if es == [] then []
    else if es[|es| - 1].elem == id then es[..|es| - 1]
    else WithoutElem(es[..|es| - 1], id) + [es[|es| - 1]]
  }

  /** TAILQ operations on the LRU list. */
  function ListAfter(tr: Traced, step: Step): seq<Lru.Entry<Id>>
    requires step.thread < |tr.st.threads| == |tr.sizes|
  {
    match tr.st.threads[step.thread]
    case Find(Lookup(key)) => if step.choice.Found? then Lru.Touch(tr.lru, key) else tr.lru
    case Find(Insert(key)) => if step.choice.Found? then Lru.Drop(tr.lru, key) else tr.lru
    case Room(key) =>
      (match step.choice
       case Victim(id) => WithoutElem(tr.lru, id)
       case _ => [Lru.Entry(key, E.RoundedSize(tr.sizes[step.thread]), tr.st.next)] + tr.lru)
    case _ => tr.lru
  }

  /** The request that takes effect in this step, and its answer: a lookup when it misses,
      finds the element not ready or counts itself in, an insert when its element exists,
      a release with its atomic operation. */
  function EventOf(tr: Traced, step: Step): Option<System.Event>
    requires step.thread < |tr.st.threads| == |tr.sizes|
  {
    var st := tr.st;
    match st.threads[step.thread]
    case Find(Lookup(key)) =>
      if step.choice.Found? then None else Some(System.Event(E.Lookup(key), Some(E.Null)))
    case Check(id) =>
      if id in st.mem && st.mem[id].notReady then Some(System.Event(E.Lookup(st.mem[id].key), Some(E.Null))) else None
    case Inc(id) =>
      if id in st.mem then Some(System.Event(E.Lookup(st.mem[id].key), Some(E.Ref(id, E.Reader)))) else None
    case Room(key) =>
      if step.choice.Victim? then None
      else Some(System.Event(E.Insert(key, tr.sizes[step.thread]), Some(E.Ref(st.next, E.Inserter))))
    case Sub(id) => Some(System.Event(E.Release(E.Ref(id, E.Reader)), None))
    case And(id) => Some(System.Event(E.Release(E.Ref(id, E.Inserter)), None))
    case _ => None
  }

  function Next(tr: Traced, step: Step, size: nat): Traced
    requires step.thread < |tr.st.threads| == |tr.sizes|
  {
    var t := step.thread;
    var event := EventOf(tr, step);
    Traced(
      Apply(tr.st, step),
      ListAfter(tr, step),
      if tr.st.threads[t].Idle? then tr.sizes[t := size] else tr.sizes,
      if event.Some? then tr.log + [(t, event.value)] else tr.log,
      if tr.st.threads[t].Want? then tr.grants + [(t, OpOf(tr.st.threads[t].call, tr.sizes[t]))] else tr.grants)
  }

  function RoomFor(maxSize: nat, size: nat): nat {
    if E.RoundedSize(size) <= maxSize then maxSize - E.RoundedSize(size) else 0
  }

  /** Steps of a partition that runs EVICT_LRU with inserts that fit: the victim is the last
      of the list, and there is one as long as there is no room. */
  ghost predicate CanStep(maxSize: nat, tr: Traced, step: Step, size: nat) {
    && |tr.st.threads| == |tr.sizes| && Enabled(tr.st, step)
    && match tr.st.threads[step.thread]
       case Idle => step.choice.Start? ==> E.RoundedSize(size) <= maxSize
       case Room(_) =>
         var room := RoomFor(maxSize, tr.sizes[step.thread]);
         if step.choice.Victim? then
           tr.lru != [] && Lru.Total(tr.lru) > room && tr.lru[|tr.lru| - 1].elem == step.choice.id
         else Lru.Total(tr.lru) <= room
       case _ => true
  }

  // The invariant.

  /** The references outside the table, as the sequential run counts them. */
  ghost predicate RefsMatch(st: State, T: multiset<E.Answer>) {
    forall id: Id :: RefsOf(st, T, id)
  }

  ghost predicate RefsOf(st: State, T: multiset<E.Answer>, id: Id) {
    T[E.Ref(id, E.Inserter)] == Count(st, id, Inserter) && T[E.Ref(id, E.Reader)] == Count(st, id, Reader)
  }

  ghost predicate Listed(mem: map<Id, Cell>, e: Lru.Entry<Id>) {
    e.elem in mem && mem[e.elem].key == e.key
  }

  ghost predicate ListOk(st: State, lru: seq<Lru.Entry<Id>>) {
    && st.table == E.Ids(lru) && Lru.DistinctKeys(lru) && E.DistinctElems(lru)
    && forall e :: e in lru ==> Listed(st.mem, e)
  }

  /** The lookup in progress has moved its element to the front already. */
  ghost predicate Touched(mem: map<Id, Cell>, id: Id, before: seq<Lru.Entry<Id>>, now: seq<Lru.Entry<Id>>) {
    && id in mem
    && var i := Lru.Find(before, mem[id].key);
       i < |before| && before[i].elem == id && now == Lru.Touch(before, mem[id].key)
  }

  /** The insert in progress has dropped the old element and some of its victims. */
  ghost predicate Clearing(room: nat, key: nat, before: seq<Lru.Entry<Id>>, now: seq<Lru.Entry<Id>>) {
    var d := Lru.Drop(before, key);
    |now| <= |d| && now == d[..|now|] && Lru.Evict(now, room) == Lru.Evict(d, room)
  }

  ghost predicate InHand(maxSize: nat, st: State, pc: Pc, size: nat, before: seq<Lru.Entry<Id>>,
                         now: seq<Lru.Entry<Id>>) {
    match pc
    case Check(id) => Touched(st.mem, id, before, now)
    case Inc(id) => Touched(st.mem, id, before, now)
    case Drop(_, key) => Clearing(RoomFor(maxSize, size), key, before, now)
    case DropFree(_, key) => Clearing(RoomFor(maxSize, size), key, before, now)
    case Room(key) => Clearing(RoomFor(maxSize, size), key, before, now)
    case _ => now == before
  }

  /** The list against that of the sequential run, which is behind by the call that holds
      the lock. */
  ghost predicate ListMatch(maxSize: nat, tr: Traced, before: seq<Lru.Entry<Id>>) {
    && |tr.st.threads| == |tr.sizes|
    && match tr.st.holder
       case None => tr.lru == before
       case Some(t) => t < |tr.st.threads| && InHand(maxSize, tr.st, tr.st.threads[t], tr.sizes[t], before, tr.lru)
  }

  ghost predicate LogOk(maxSize: nat, log: seq<(nat, System.Event)>, p: E.Part, T: multiset<E.Answer>) {
    var p0, ops := E.Empty(maxSize), Safety.LogOps(log);
    && Lifetime.Disciplined(E.Atomics, p0, ops)
    && p == Lifetime.Run(E.Atomics, p0, ops) && T == Lifetime.RunRefs(E.Atomics, p0, ops)
    && Safety.LogAnswers(log) == Lifetime.Answers(E.Atomics, p0, ops)
  }

  ghost predicate Inserting(pc: Pc) {
    (pc.Want? && pc.call.Insert?) || (pc.Find? && pc.call.Insert?) || pc.Drop? || pc.DropFree? || pc.Room?
  }

  ghost predicate SizesOk(maxSize: nat, tr: Traced) {
    && |tr.st.threads| == |tr.sizes|
    && forall t :: 0 <= t < |tr.sizes| && Inserting(tr.st.threads[t]) ==> E.RoundedSize(tr.sizes[t]) <= maxSize
  }

  ghost predicate Match(maxSize: nat, tr: Traced, p: E.Part, T: multiset<E.Answer>) {
    && LogOk(maxSize, tr.log, p, T)
    && RefsMatch(tr.st, T) && p.next == tr.st.next
    && ListOk(tr.st, tr.lru) && ListMatch(maxSize, tr, p.lru)
  }

  ghost predicate Inv(maxSize: nat, tr: Traced, p: E.Part, T: multiset<E.Answer>) {
    StateOk(tr.st) && SizesOk(maxSize, tr) && Match(maxSize, tr, p, T)
  }

  // The sequential run, one request further.

  lemma LogStep(maxSize: nat, log: seq<(nat, System.Event)>, p: E.Part, T: multiset<E.Answer>, t: nat, op: E.Op,
                q: E.Part, a: Option<E.Answer>)
    requires LogOk(maxSize, log, p, T) && Lifetime.Permitted(p, T, op) && (q, a) == E.Exec(E.Atomics, p, op)
    ensures LogOk(maxSize, log + [(t, System.Event(op, a))], q, Lifetime.Refs(T, op, a))
  {
    var ops := Safety.LogOps(log);
    Safety.LogSnoc(log, (t, System.Event(op, a)));
    Lifetime.RunSnocAll(E.Atomics, E.Empty(maxSize), ops, op);
    assert (ops + [op])[..|ops + [op]| - 1] == ops;
  }

  lemma PartOkOf(maxSize: nat, log: seq<(nat, System.Event)>, p: E.Part, T: multiset<E.Answer>)
    requires LogOk(maxSize, log, p, T)
    ensures E.PartOk(E.Atomics, p, T) && p.maxSize == maxSize
  {
    Lifetime.RunOk(E.Atomics, maxSize, Safety.LogOps(log));
  }

  /** What Exec does to a partition, without the elements. */
  ghost predicate Executes(p: E.Part, T: multiset<E.Answer>, op: E.Op, q: E.Part, a: Option<E.Answer>) {
    Lifetime.Permitted(p, T, op) && (q, a) == E.Exec(E.Atomics, p, op)
  }

  lemma LookupExecutes(p: E.Part, T: multiset<E.Answer>, key: nat) returns (q: E.Part, a: E.Answer)
    requires E.PartOk(E.Atomics, p, T)
    ensures Executes(p, T, E.Lookup(key), q, Some(a))
    ensures q.lru == Lru.Touch(p.lru, key) && q.next == p.next
    ensures var i := Lru.Find(p.lru, key);
            a == if i < |p.lru| && T[E.Ref(p.lru[i].elem, E.Inserter)] == 0 then E.Ref(p.lru[i].elem, E.Reader)
                 else E.Null
  {
    Lifetime.LookupAnswer(E.Atomics, p, T, key);
    var r := E.ExecLookup(p, key);
    q, a := r.0, r.1;
  }

  lemma InsertExecutes(p: E.Part, T: multiset<E.Answer>, key: nat, size: nat) returns (q: E.Part)
    requires E.PartOk(E.Atomics, p, T) && E.RoundedSize(size) <= p.maxSize
    ensures Executes(p, T, E.Insert(key, size), q, Some(E.Ref(p.next, E.Inserter)))
    ensures q.next == p.next + 1
    ensures q.lru == Lru.Insert(p.lru, p.maxSize, Lru.Entry(key, E.RoundedSize(size), p.next))
  {
    Lifetime.InsertOk(E.Atomics, p, T, key, size);
    q := E.ExecInsert(E.Atomics, p, key, size).0;
  }

  lemma ReleaseExecutes(p: E.Part, T: multiset<E.Answer>, id: Id, hold: E.Hold) returns (q: E.Part)
    requires E.PartOk(E.Atomics, p, T) && E.Ref(id, hold) in T
    ensures Executes(p, T, E.Release(E.Ref(id, hold)), q, None)
    ensures q.next == p.next && q.lru == p.lru
  {
    Lifetime.ReleaseOk(E.Atomics, p, T, id, hold);
    q := E.PutBack(E.Atomics, p, id, hold == E.Inserter);
  }

  // The references.

  lemma RefsMove(st: State, r: State, t: nat, pc: Pc, T: multiset<E.Answer>, U: multiset<E.Answer>)
    requires t < |st.threads| && r.threads == st.threads[t := pc] && RefsMatch(st, T)
    requires forall id: Id :: GainOk(st, r, t, pc, T, U, id)
    ensures RefsMatch(r, U)
  {
    forall id: Id ensures RefsOf(r, U, id) {
      assert RefsOf(st, T, id) && GainOk(st, r, t, pc, T, U, id);
      CountMoves(st, t, pc, r, id);
    }
  }

  ghost predicate GainOk(st: State, r: State, t: nat, pc: Pc, T: multiset<E.Answer>, U: multiset<E.Answer>, id: Id)
    requires t < |st.threads|
  {
    && U[E.Ref(id, E.Inserter)] as int
       == T[E.Ref(id, E.Inserter)] + Gain(st.threads[t], pc, st.held, r.held, Token(id, Inserter))
    && U[E.Ref(id, E.Reader)] as int
       == T[E.Ref(id, E.Reader)] + Gain(st.threads[t], pc, st.held, r.held, Token(id, Reader))
  }

  ghost function AfterEvent(T: multiset<E.Answer>, event: Option<System.Event>): multiset<E.Answer> {
    match event
    case None => T
    case Some(e) => Lifetime.Refs(T, e.op, e.answer)
  }

  /** Most steps move no reference in or out. */
  lemma RefsQuiet(st: State, step: Step, T: multiset<E.Answer>)
    requires Enabled(st, step) && Focused(st, step.thread) && RefsMatch(st, T)
    requires var pc := st.threads[step.thread];
             pc.Want? || pc.Find? || pc.Check? || pc.Drop? || pc.DropFree? || pc.Free?
               || (pc.Room? && step.choice.Victim?)
    ensures RefsMatch(Apply(st, step), T)
  {
    var t, r := step.thread, Apply(st, step);
    OneThreadMoves(st, step);
    assert r.held == st.held;
    RefsMove(st, r, t, r.threads[t], T, T);
  }

  lemma NullIsNone(st: State, T: multiset<E.Answer>)
    requires RefsMatch(st, T)
    ensures RefsMatch(st, T + multiset{E.Null})
  {
    forall id: Id ensures RefsOf(st, T + multiset{E.Null}, id) { assert RefsOf(st, T, id); }
  }

  lemma RefsHanded(st: State, step: Step, T: multiset<E.Answer>)
    requires Enabled(st, step) && Focused(st, step.thread) && PcOk(st, step.thread) && RefsMatch(st, T)
    requires st.threads[step.thread].Idle? || st.threads[step.thread].Leave?
    ensures RefsMatch(Apply(st, step), T)
  {
    if st.threads[step.thread].Leave? {
      RefsLeave(st, step, T);
    } else if step.choice.Start? {
      RefsStart(st, step, T);
    } else {
      RefsGiveBack(st, step, T);
    }
  }

  lemma RefsLeave(st: State, step: Step, T: multiset<E.Answer>)
    requires Enabled(st, step) && Focused(st, step.thread) && RefsMatch(st, T) && st.threads[step.thread].Leave?
    ensures RefsMatch(Apply(st, step), T)
  {
    OneThreadMoves(st, step);
    RefsMove(st, Apply(st, step), step.thread, Idle, T, T);
  }

  lemma RefsStart(st: State, step: Step, T: multiset<E.Answer>)
    requires Enabled(st, step) && Focused(st, step.thread) && RefsMatch(st, T)
    requires st.threads[step.thread].Idle? && step.choice.Start?
    ensures RefsMatch(Apply(st, step), T)
  {
    OneThreadMoves(st, step);
    RefsMove(st, Apply(st, step), step.thread, Want(step.choice.call), T, T);
  }

  lemma RefsGiveBack(st: State, step: Step, T: multiset<E.Answer>)
    requires Enabled(st, step) && Focused(st, step.thread) && RefsMatch(st, T)
    requires st.threads[step.thread].Idle? && step.choice.GiveBack?
    ensures RefsMatch(Apply(st, step), T)
  {
    var k := step.choice.token;
    var pc := if k.kind == Inserter then And(k.id) else Sub(k.id);
    OneThreadMoves(st, step);
    assert Carry(pc) == Some(k);
    RefsMove(st, Apply(st, step), step.thread, pc, T, T);
  }

  lemma RefsInc(st: State, step: Step, T: multiset<E.Answer>)
    requires Enabled(st, step) && Focused(st, step.thread) && RefsMatch(st, T) && st.threads[step.thread].Inc?
    ensures RefsMatch(Apply(st, step), T + multiset{E.Ref(st.threads[step.thread].id, E.Reader)})
  {
    var t, r := step.thread, Apply(st, step);
    OneThreadMoves(st, step);
    RefsMove(st, r, t, r.threads[t], T, T + multiset{E.Ref(st.threads[t].id, E.Reader)});
  }

  lemma RefsNew(st: State, step: Step, T: multiset<E.Answer>)
    requires Enabled(st, step) && Focused(st, step.thread) && RefsMatch(st, T)
    requires st.threads[step.thread].Room? && step.choice.Enough?
    ensures RefsMatch(Apply(st, step), T + multiset{E.Ref(st.next, E.Inserter)})
  {
    var t, r := step.thread, Apply(st, step);
    OneThreadMoves(st, step);
    RefsMove(st, r, t, r.threads[t], T, T + multiset{E.Ref(st.next, E.Inserter)});
  }

  lemma RefsGiven(st: State, step: Step, T: multiset<E.Answer>)
    requires Enabled(st, step) && Focused(st, step.thread) && RefsMatch(st, T)
    requires st.threads[step.thread].Sub? || st.threads[step.thread].And?
    ensures var pc := st.threads[step.thread];
            var ref := E.Ref(pc.id, if pc.Sub? then E.Reader else E.Inserter);
            ref in T && RefsMatch(Apply(st, step), T - multiset{ref})
  {
    var t, r := step.thread, Apply(st, step);
    var pc := st.threads[t];
    var ref := E.Ref(pc.id, if pc.Sub? then E.Reader else E.Inserter);
    CarriedAtLeast(st.threads, t, Carry(pc).value);
    assert RefsOf(st, T, pc.id);
    OneThreadMoves(st, step);
    RefsMove(st, r, t, r.threads[t], T, T - multiset{ref});
  }

  // The LRU list holds the elements of the table.

  /** Whatever a step does, an element of the table stays allocated with its key. */
  lemma KeysKept(st: State, step: Step, id: Id)
    requires StateOk(st) && Enabled(st, step) && id in st.table
    ensures id in st.mem && id in Apply(st, step).mem && Apply(st, step).mem[id].key == st.mem[id].key
  {
    var t := step.thread;
    assert IdOk(st, id) && IdOk(st, st.next);
    FocusOk(st, t);
    if st.threads[t].Free? || st.threads[t].DropFree? { CarriedAtLeast(st.threads, t, Token(id, Duty)); }
  }

  lemma ListKept(st: State, step: Step, lru: seq<Lru.Entry<Id>>)
    requires StateOk(st) && Enabled(st, step) && ListOk(st, lru) && Apply(st, step).table == st.table
    ensures ListOk(Apply(st, step), lru)
  {
    forall e | e in lru ensures Listed(Apply(st, step).mem, e) {
      assert e.elem in E.Ids(lru) && Listed(st.mem, e);
      KeysKept(st, step, e.elem);
    }
  }

  /** The entry of an element of the table that has the key. */
  lemma EntryOf(st: State, lru: seq<Lru.Entry<Id>>, id: Id, key: nat)
    requires ListOk(st, lru) && IsEntry(st, id, key)
    ensures Lru.Find(lru, key) < |lru| && lru[Lru.Find(lru, key)].elem == id
  {
    var e :| e in lru && e.elem == id;
    assert Listed(st.mem, e);
    var i :| 0 <= i < |lru| && lru[i] == e;
    var k := Lru.Find(lru, key);
    assert k <= i;
  }

  lemma NoEntry(st: State, lru: seq<Lru.Entry<Id>>, key: nat)
    requires ListOk(st, lru) && forall id :: id in st.table ==> !IsEntry(st, id, key)
    ensures Lru.Find(lru, key) == |lru|
  {
    var k := Lru.Find(lru, key);
    if k < |lru| {
      assert lru[k] in lru && Listed(st.mem, lru[k]) && lru[k].elem in E.Ids(lru);
      assert IsEntry(st, lru[k].elem, key);
    }
  }

  lemma TouchOk(st: State, r: State, lru: seq<Lru.Entry<Id>>, key: nat)
    requires ListOk(st, lru) && r.table == st.table && r.mem == st.mem
    ensures ListOk(r, Lru.Touch(lru, key))
  {
    var i := Lru.Find(lru, key);
    if i < |lru| {
      Lifetime.TouchIds(lru, i);
      Lifetime.WithoutMembers(lru, i);
    }
  }

  lemma RemoveOk(st: State, r: State, lru: seq<Lru.Entry<Id>>, i: nat)
    requires ListOk(st, lru) && i < |lru| && r.table == st.table - {lru[i].elem} && r.mem == st.mem
    ensures ListOk(r, Lru.Without(lru, i))
  {
    Lifetime.WithoutIds(lru, i);
    Lifetime.WithoutDistinct(lru, i);
    Lifetime.WithoutMembers(lru, i);
  }

  lemma PushOk(st: State, r: State, lru: seq<Lru.Entry<Id>>, e: Lru.Entry<Id>)
    requires ListOk(st, lru) && e.elem !in st.mem && forall x :: x in lru ==> x.key != e.key
    requires r.table == st.table + {e.elem} && Listed(r.mem, e)
    requires forall id :: id in st.mem ==> id in r.mem && r.mem[id].key == st.mem[id].key
    ensures ListOk(r, [e] + lru)
  {
    forall x | x in lru ensures x.elem != e.elem && Listed(r.mem, x) { assert Listed(st.mem, x); }
    assert ([e] + lru)[1..] == lru;
    forall i | 0 <= i < |lru| ensures ([e] + lru)[i + 1] == lru[i] && lru[i] in lru {
    }
    assert E.Ids([e] + lru) == E.Ids(lru) + {e.elem};
  }

  // Every step, by what the thread is doing.

  /** A step of a thread without the lock leaves the holder's work alone. */
  lemma HolderKept(maxSize: nat, tr: Traced, step: Step, size: nat, before: seq<Lru.Entry<Id>>)
    requires StateOk(tr.st) && CanStep(maxSize, tr, step, size) && ListMatch(maxSize, tr, before)
    requires var pc := tr.st.threads[step.thread]; !NeedsLock(pc) && !pc.Want?
    ensures ListMatch(maxSize, Next(tr, step, size), before)
  {
    var t := step.thread;
    assert PcOk(tr.st, t);
    FocusOk(tr.st, t);
    OneThreadMoves(tr.st, step);
    HolderSame(tr.st, step);
    if tr.st.holder.Some? {
      var h := tr.st.holder.value;
      assert PcOk(tr.st, h) && h != t;
      if tr.st.threads[h].Check? || tr.st.threads[h].Inc? { KeysKept(tr.st, step, tr.st.threads[h].id); }
    }
  }

  lemma HolderSame(st: State, step: Step)
    requires Enabled(st, step) && Focused(st, step.thread)
    requires var pc := st.threads[step.thread]; !NeedsLock(pc) && !pc.Want?
    ensures Apply(st, step).holder == st.holder && Apply(st, step).table == st.table && Apply(st, step).next == st.next
  {
  }

  lemma OutsideStep(maxSize: nat, tr: Traced, step: Step, size: nat, p: E.Part, T: multiset<E.Answer>)
    requires Inv(maxSize, tr, p, T) && CanStep(maxSize, tr, step, size)
    requires var pc := tr.st.threads[step.thread]; pc.Idle? || pc.Free?
    ensures Match(maxSize, Next(tr, step, size), p, T)
  {
    HolderKept(maxSize, tr, step, size, p.lru);
    OutsideRest(tr.st, step, tr.lru, T);
  }

  lemma OutsideRest(st: State, step: Step, lru: seq<Lru.Entry<Id>>, T: multiset<E.Answer>)
    requires StateOk(st) && Enabled(st, step) && ListOk(st, lru) && RefsMatch(st, T)
    requires st.threads[step.thread].Idle? || st.threads[step.thread].Free?
    ensures RefsMatch(Apply(st, step), T) && ListOk(Apply(st, step), lru) && Apply(st, step).next == st.next
  {
    FocusOk(st, step.thread);
    assert PcOk(st, step.thread);
    HolderSame(st, step);
    ListKept(st, step, lru);
    if st.threads[step.thread].Idle? { RefsHanded(st, step, T); } else { RefsQuiet(st, step, T); }
  }

  lemma ReleaseStep(maxSize: nat, tr: Traced, step: Step, size: nat, p: E.Part, T: multiset<E.Answer>)
    returns (q: E.Part, U: multiset<E.Answer>)
    requires Inv(maxSize, tr, p, T) && CanStep(maxSize, tr, step, size)
    requires var pc := tr.st.threads[step.thread]; pc.Sub? || pc.And?
    ensures Match(maxSize, Next(tr, step, size), q, U)
  {
    var t := step.thread;
    var pc := tr.st.threads[t];
    var hold := if pc.Sub? then E.Reader else E.Inserter;
    var op := E.Release(E.Ref(pc.id, hold));
    FocusOk(tr.st, t);
    PartOkOf(maxSize, tr.log, p, T);
    RefsGiven(tr.st, step, T);
    q := ReleaseExecutes(p, T, pc.id, hold);
    U := Lifetime.Refs(T, op, None);
    assert U == T - multiset{E.Ref(pc.id, hold)};
    LogStep(maxSize, tr.log, p, T, t, op, q, None);
    HolderKept(maxSize, tr, step, size, p.lru);
    HolderSame(tr.st, step);
    ListKept(tr.st, step, tr.lru);
  }

  lemma WantStep(maxSize: nat, tr: Traced, step: Step, size: nat, p: E.Part, T: multiset<E.Answer>)
    requires Inv(maxSize, tr, p, T) && CanStep(maxSize, tr, step, size) && tr.st.threads[step.thread].Want?
    ensures Match(maxSize, Next(tr, step, size), p, T)
  {
    FocusOk(tr.st, step.thread);
    RefsQuiet(tr.st, step, T);
    ListKept(tr.st, step, tr.lru);
  }

  lemma LeaveStep(maxSize: nat, tr: Traced, step: Step, size: nat, p: E.Part, T: multiset<E.Answer>)
    requires Inv(maxSize, tr, p, T) && CanStep(maxSize, tr, step, size) && tr.st.threads[step.thread].Leave?
    ensures Match(maxSize, Next(tr, step, size), p, T)
  {
    assert PcOk(tr.st, step.thread);
    FocusOk(tr.st, step.thread);
    RefsHanded(tr.st, step, T);
    ListKept(tr.st, step, tr.lru);
  }

  /** A lookup takes effect: its answer is that of the sequential run. */
  lemma LookupEvent(maxSize: nat, tr: Traced, step: Step, size: nat, p: E.Part, T: multiset<E.Answer>, key: nat,
                    a: E.Answer)
    returns (q: E.Part, U: multiset<E.Answer>)
    requires Inv(maxSize, tr, p, T) && CanStep(maxSize, tr, step, size)
    requires EventOf(tr, step) == Some(System.Event(E.Lookup(key), Some(a)))
    requires var i := Lru.Find(p.lru, key);
             a == if i < |p.lru| && T[E.Ref(p.lru[i].elem, E.Inserter)] == 0 then E.Ref(p.lru[i].elem, E.Reader)
                  else E.Null
    ensures LogOk(maxSize, Next(tr, step, size).log, q, U) && U == T + multiset{a}
    ensures q.lru == Lru.Touch(p.lru, key) && q.next == p.next
  {
    PartOkOf(maxSize, tr.log, p, T);
    var b;
    q, b := LookupExecutes(p, T, key);
    U := Lifetime.Refs(T, E.Lookup(key), Some(a));
    LogStep(maxSize, tr.log, p, T, step.thread, E.Lookup(key), q, Some(a));
  }

  lemma FindLookupStep(maxSize: nat, tr: Traced, step: Step, size: nat, p: E.Part, T: multiset<E.Answer>)
    returns (q: E.Part, U: multiset<E.Answer>)
    requires Inv(maxSize, tr, p, T) && CanStep(maxSize, tr, step, size)
    requires tr.st.threads[step.thread].Find? && tr.st.threads[step.thread].call.Lookup?
    ensures Match(maxSize, Next(tr, step, size), q, U)
  {
    var t := step.thread;
    var key := tr.st.threads[t].call.key;
    assert PcOk(tr.st, t);
    FocusOk(tr.st, t);
    RefsQuiet(tr.st, step, T);
    if step.choice.Found? {
      q, U := p, T;
      EntryOf(tr.st, tr.lru, step.choice.id, key);
      TouchOk(tr.st, Apply(tr.st, step), tr.lru, key);
    } else {
      NoEntry(tr.st, tr.lru, key);
      q, U := LookupEvent(maxSize, tr, step, size, p, T, key, E.Null);
      NullIsNone(Apply(tr.st, step), T);
      ListKept(tr.st, step, tr.lru);
    }
  }

  /** The element a lookup has found, in the sequential run. */
  lemma TouchedEntry(maxSize: nat, tr: Traced, step: Step, size: nat, p: E.Part, T: multiset<E.Answer>)
    requires Inv(maxSize, tr, p, T) && CanStep(maxSize, tr, step, size)
    requires tr.st.threads[step.thread].Check? || tr.st.threads[step.thread].Inc?
    ensures var id := tr.st.threads[step.thread].id;
            && Touched(tr.st.mem, id, p.lru, tr.lru)
            && (tr.st.mem[id].notReady <==> T[E.Ref(id, E.Inserter)] == 1) && T[E.Ref(id, E.Inserter)] <= 1
  {
    var id := tr.st.threads[step.thread].id;
    assert PcOk(tr.st, step.thread) && IdOk(tr.st, id) && RefsOf(tr.st, T, id);
  }

  lemma CheckStep(maxSize: nat, tr: Traced, step: Step, size: nat, p: E.Part, T: multiset<E.Answer>)
    returns (q: E.Part, U: multiset<E.Answer>)
    requires Inv(maxSize, tr, p, T) && CanStep(maxSize, tr, step, size) && tr.st.threads[step.thread].Check?
    ensures Match(maxSize, Next(tr, step, size), q, U)
  {
    var t := step.thread;
    var id := tr.st.threads[t].id;
    assert PcOk(tr.st, t);
    FocusOk(tr.st, t);
    TouchedEntry(maxSize, tr, step, size, p, T);
    RefsQuiet(tr.st, step, T);
    ListKept(tr.st, step, tr.lru);
    if tr.st.mem[id].notReady {
      q, U := LookupEvent(maxSize, tr, step, size, p, T, tr.st.mem[id].key, E.Null);
      NullIsNone(Apply(tr.st, step), T);
    } else {
      q, U := p, T;
    }
  }

  lemma IncStep(maxSize: nat, tr: Traced, step: Step, size: nat, p: E.Part, T: multiset<E.Answer>)
    returns (q: E.Part, U: multiset<E.Answer>)
    requires Inv(maxSize, tr, p, T) && CanStep(maxSize, tr, step, size) && tr.st.threads[step.thread].Inc?
    ensures Match(maxSize, Next(tr, step, size), q, U)
  {
    var t := step.thread;
    var id := tr.st.threads[t].id;
    assert PcOk(tr.st, t);
    FocusOk(tr.st, t);
    TouchedEntry(maxSize, tr, step, size, p, T);
    RefsInc(tr.st, step, T);
    ListKept(tr.st, step, tr.lru);
    q, U := LookupEvent(maxSize, tr, step, size, p, T, tr.st.mem[id].key, E.Ref(id, E.Reader));
  }

  lemma FindInsertStep(maxSize: nat, tr: Traced, step: Step, size: nat, p: E.Part, T: multiset<E.Answer>)
    requires Inv(maxSize, tr, p, T) && CanStep(maxSize, tr, step, size)
    requires tr.st.threads[step.thread].Find? && tr.st.threads[step.thread].call.Insert?
    ensures Match(maxSize, Next(tr, step, size), p, T)
  {
    var t := step.thread;
    var key := tr.st.threads[t].call.key;
    assert PcOk(tr.st, t);
    FocusOk(tr.st, t);
    RefsQuiet(tr.st, step, T);
    if step.choice.Found? {
      EntryOf(tr.st, tr.lru, step.choice.id, key);
      RemoveOk(tr.st, Apply(tr.st, step), tr.lru, Lru.Find(tr.lru, key));
    } else {
      NoEntry(tr.st, tr.lru, key);
      ListKept(tr.st, step, tr.lru);
    }
    var d := Lru.Drop(tr.lru, key);
    assert d[..|d|] == d;
  }

  lemma DropStep(maxSize: nat, tr: Traced, step: Step, size: nat, p: E.Part, T: multiset<E.Answer>)
    requires Inv(maxSize, tr, p, T) && CanStep(maxSize, tr, step, size)
    requires tr.st.threads[step.thread].Drop? || tr.st.threads[step.thread].DropFree?
    ensures Match(maxSize, Next(tr, step, size), p, T)
  {
    assert PcOk(tr.st, step.thread);
    FocusOk(tr.st, step.thread);
    RefsQuiet(tr.st, step, T);
    ListKept(tr.st, step, tr.lru);
  }

  lemma LastOut(lru: seq<Lru.Entry<Id>>, id: Id)
    requires lru != [] && lru[|lru| - 1].elem == id
    ensures WithoutElem(lru, id) == lru[..|lru| - 1] == Lru.Without(lru, |lru| - 1)
  {
  }

  lemma VictimStep(maxSize: nat, tr: Traced, step: Step, size: nat, p: E.Part, T: multiset<E.Answer>)
    requires Inv(maxSize, tr, p, T) && CanStep(maxSize, tr, step, size)
    requires tr.st.threads[step.thread].Room? && step.choice.Victim?
    ensures Match(maxSize, Next(tr, step, size), p, T)
  {
    assert PcOk(tr.st, step.thread);
    FocusOk(tr.st, step.thread);
    RefsQuiet(tr.st, step, T);
    LastOut(tr.lru, step.choice.id);
    RemoveOk(tr.st, Apply(tr.st, step), tr.lru, |tr.lru| - 1);
    var d := Lru.Drop(p.lru, tr.st.threads[step.thread].key);
    assert d[..|tr.lru|][..|tr.lru| - 1] == d[..|tr.lru| - 1];
  }

  lemma ClearedEnough(room: nat, key: nat, before: seq<Lru.Entry<Id>>, now: seq<Lru.Entry<Id>>)
    requires Clearing(room, key, before, now) && Lru.Total(now) <= room && Lru.DistinctKeys(before)
    ensures Lru.Evict(Lru.Drop(before, key), room) == now
    ensures forall x :: x in now ==> x.key != key
  {
    Lru.DropFacts(before, key);
    assert forall x :: x in now ==> x in Lru.Drop(before, key);
  }

  lemma NewElement(st: State, step: Step)
    requires Enabled(st, step) && st.threads[step.thread].Room? && step.choice.Enough? && IdOk(st, st.next)
    ensures var r := Apply(st, step);
            && st.next !in st.mem && r.table == st.table + {st.next} && r.next == st.next + 1
            && r.holder == st.holder && r.threads[step.thread].Leave?
            && st.next in r.mem && r.mem[st.next].key == st.threads[step.thread].key
            && forall id :: id in st.mem ==> id in r.mem && r.mem[id].key == st.mem[id].key
  {
  }

  lemma InsertLog(maxSize: nat, log: seq<(nat, System.Event)>, p: E.Part, T: multiset<E.Answer>, t: nat, key: nat,
                  size: nat)
    returns (q: E.Part, U: multiset<E.Answer>)
    requires LogOk(maxSize, log, p, T) && E.RoundedSize(size) <= maxSize
    ensures LogOk(maxSize, log + [(t, System.Event(E.Insert(key, size), Some(E.Ref(p.next, E.Inserter))))], q, U)
    ensures U == T + multiset{E.Ref(p.next, E.Inserter)} && q.next == p.next + 1
    ensures q.lru == Lru.Insert(p.lru, maxSize, Lru.Entry(key, E.RoundedSize(size), p.next))
    ensures Lru.DistinctKeys(p.lru)
  {
    PartOkOf(maxSize, log, p, T);
    q := InsertExecutes(p, T, key, size);
    U := Lifetime.Refs(T, E.Insert(key, size), Some(E.Ref(p.next, E.Inserter)));
    LogStep(maxSize, log, p, T, t, E.Insert(key, size), q, Some(E.Ref(p.next, E.Inserter)));
  }

  /** The entry an insert adds. */
  function NewEntry(tr: Traced, t: nat): Lru.Entry<Id>
    requires t < |tr.st.threads| == |tr.sizes| && tr.st.threads[t].Room?
  {
    Lru.Entry(tr.st.threads[t].key, E.RoundedSize(tr.sizes[t]), tr.st.next)
  }

  /** What the last step of an insert adds to list and log. */
  lemma EnoughNext(maxSize: nat, tr: Traced, step: Step, size: nat, before: seq<Lru.Entry<Id>>, e: Lru.Entry<Id>)
    requires CanStep(maxSize, tr, step, size) && ListMatch(maxSize, tr, before)
    requires tr.st.threads[step.thread].Room? && step.choice.Enough? && tr.st.holder == Some(step.thread)
    requires e == NewEntry(tr, step.thread) && e.size <= maxSize
    ensures var t, n := step.thread, Next(tr, step, size);
            && Clearing(maxSize - e.size, e.key, before, tr.lru) && Lru.Total(tr.lru) <= maxSize - e.size
            && n.lru == [e] + tr.lru && n.sizes == tr.sizes
            && n.log == tr.log + [(t, System.Event(E.Insert(e.key, tr.sizes[t]), Some(E.Ref(tr.st.next, E.Inserter))))]
            && n.st == Apply(tr.st, step) && n.st.holder == Some(t) && n.st.threads[t].Leave?
  {
  }

  lemma InsertedList(maxSize: nat, e: Lru.Entry<Id>, before: seq<Lru.Entry<Id>>, now: seq<Lru.Entry<Id>>)
    requires e.size <= maxSize && Lru.DistinctKeys(before)
    requires Clearing(maxSize - e.size, e.key, before, now) && Lru.Total(now) <= maxSize - e.size
    ensures Lru.Insert(before, maxSize, e) == [e] + now
    ensures forall x :: x in now ==> x.key != e.key
  {
    ClearedEnough(maxSize - e.size, e.key, before, now);
  }

  lemma EnoughSerial(maxSize: nat, log: seq<(nat, System.Event)>, lru: seq<Lru.Entry<Id>>, p: E.Part,
                     T: multiset<E.Answer>, t: nat, size: nat, e: Lru.Entry<Id>)
    returns (q: E.Part, U: multiset<E.Answer>)
    requires LogOk(maxSize, log, p, T) && e == Lru.Entry(e.key, E.RoundedSize(size), p.next) && e.size <= maxSize
    requires Clearing(maxSize - e.size, e.key, p.lru, lru) && Lru.Total(lru) <= maxSize - e.size
    ensures LogOk(maxSize, log + [(t, System.Event(E.Insert(e.key, size), Some(E.Ref(p.next, E.Inserter))))], q, U)
    ensures U == T + multiset{E.Ref(p.next, E.Inserter)} && q.next == p.next + 1 && q.lru == [e] + lru
    ensures forall x :: x in lru ==> x.key != e.key
  {
    q, U := InsertLog(maxSize, log, p, T, t, e.key, size);
    InsertedList(maxSize, e, p.lru, lru);
  }

  /** The table's half of the step. */
  lemma EnoughTable(maxSize: nat, tr: Traced, step: Step, size: nat, before: seq<Lru.Entry<Id>>, T: multiset<E.Answer>)
    requires StateOk(tr.st) && CanStep(maxSize, tr, step, size) && RefsMatch(tr.st, T) && ListOk(tr.st, tr.lru)
    requires tr.st.threads[step.thread].Room? && step.choice.Enough?
    requires forall x :: x in tr.lru ==> x.key != tr.st.threads[step.thread].key
    ensures var t, n := step.thread, Next(tr, step, size);
            && RefsMatch(n.st, T + multiset{E.Ref(tr.st.next, E.Inserter)})
            && ListOk(n.st, [NewEntry(tr, t)] + tr.lru)
            && n.st.next == tr.st.next + 1 && |n.st.threads| == |tr.st.threads|
  {
    EnoughFocus(tr.st, step);
    EnoughRest(tr.st, step, T, tr.lru, E.RoundedSize(tr.sizes[step.thread]));
  }

  /** And the sequential run's. */
  lemma EnoughRun(maxSize: nat, tr: Traced, step: Step, size: nat, p: E.Part, T: multiset<E.Answer>)
    returns (q: E.Part, U: multiset<E.Answer>)
    requires CanStep(maxSize, tr, step, size) && ListMatch(maxSize, tr, p.lru) && p.next == tr.st.next
    requires tr.st.threads[step.thread].Room? && step.choice.Enough? && tr.st.holder == Some(step.thread)
    requires E.RoundedSize(tr.sizes[step.thread]) <= maxSize && LogOk(maxSize, tr.log, p, T)
    ensures var t, n := step.thread, Next(tr, step, size);
            && LogOk(maxSize, n.log, q, U) && n.lru == q.lru
            && n.lru == [NewEntry(tr, t)] + tr.lru
            && n.st.holder == Some(t) && t < |n.st.threads| && n.st.threads[t].Leave?
    ensures U == T + multiset{E.Ref(p.next, E.Inserter)} && q.next == p.next + 1
    ensures forall x :: x in tr.lru ==> x.key != tr.st.threads[step.thread].key
  {
    var t := step.thread;
    var e := NewEntry(tr, t);
    EnoughNext(maxSize, tr, step, size, p.lru, e);
    q, U := EnoughSerial(maxSize, tr.log, tr.lru, p, T, t, tr.sizes[t], e);
  }

  lemma EnoughStep(maxSize: nat, tr: Traced, step: Step, size: nat, p: E.Part, T: multiset<E.Answer>)
    returns (q: E.Part, U: multiset<E.Answer>)
    requires Inv(maxSize, tr, p, T) && CanStep(maxSize, tr, step, size)
    requires tr.st.threads[step.thread].Room? && step.choice.Enough?
    ensures Match(maxSize, Next(tr, step, size), q, U)
  {
    EnoughFocus(tr.st, step);
    q, U := EnoughRun(maxSize, tr, step, size, p, T);
    EnoughTable(maxSize, tr, step, size, p.lru, T);
  }

  lemma EnoughFocus(st: State, step: Step)
    requires StateOk(st) && Enabled(st, step) && st.threads[step.thread].Room?
    ensures Focused(st, step.thread) && IdOk(st, st.next) && st.holder == Some(step.thread)
  {
    assert PcOk(st, step.thread) && IdOk(st, st.next);
    FocusOk(st, step.thread);
  }

  lemma EnoughRest(st: State, step: Step, T: multiset<E.Answer>, lru: seq<Lru.Entry<Id>>, z: nat)
    requires Enabled(st, step) && st.threads[step.thread].Room? && step.choice.Enough?
    requires Focused(st, step.thread) && IdOk(st, st.next)
    requires RefsMatch(st, T) && ListOk(st, lru) && forall x :: x in lru ==> x.key != st.threads[step.thread].key
    ensures RefsMatch(Apply(st, step), T + multiset{E.Ref(st.next, E.Inserter)})
    ensures ListOk(Apply(st, step), [Lru.Entry(st.threads[step.thread].key, z, st.next)] + lru)
    ensures Apply(st, step).next == st.next + 1 && |Apply(st, step).threads| == |st.threads|
  {
    RefsNew(st, step, T);
    NewElement(st, step);
    OneThreadMoves(st, step);
    PushOk(st, Apply(st, step), lru, Lru.Entry(st.threads[step.thread].key, z, st.next));
  }

  lemma SizesKept(maxSize: nat, tr: Traced, step: Step, size: nat)
    requires SizesOk(maxSize, tr) && CanStep(maxSize, tr, step, size) && Focused(tr.st, step.thread)
    ensures SizesOk(maxSize, Next(tr, step, size))
  {
    OneThreadMoves(tr.st, step);
    InsertingStays(tr.st, step);
  }

  lemma InsertingStays(st: State, step: Step)
    requires Enabled(st, step) && Focused(st, step.thread) && step.thread < |Apply(st, step).threads|
    ensures Inserting(Apply(st, step).threads[step.thread]) ==>
              Inserting(st.threads[step.thread]) || (st.threads[step.thread].Idle? && step.choice.Start?)
  {
  }

  lemma StepMatches(maxSize: nat, tr: Traced, step: Step, size: nat, p: E.Part, T: multiset<E.Answer>)
    returns (q: E.Part, U: multiset<E.Answer>)
    requires Inv(maxSize, tr, p, T) && CanStep(maxSize, tr, step, size)
    ensures Match(maxSize, Next(tr, step, size), q, U)
  {
    q, U := p, T;
    match tr.st.threads[step.thread]
    case Idle => OutsideStep(maxSize, tr, step, size, p, T);
    case Free(_) => OutsideStep(maxSize, tr, step, size, p, T);
    case Sub(_) => q, U := ReleaseStep(maxSize, tr, step, size, p, T);
    case And(_) => q, U := ReleaseStep(maxSize, tr, step, size, p, T);
    case Want(_) => WantStep(maxSize, tr, step, size, p, T);
    case Leave(_) => LeaveStep(maxSize, tr, step, size, p, T);
    case Find(call) =>
      if call.Lookup? {
        q, U := FindLookupStep(maxSize, tr, step, size, p, T);
      } else {
        FindInsertStep(maxSize, tr, step, size, p, T);
      }
    case Check(_) => q, U := CheckStep(maxSize, tr, step, size, p, T);
    case Inc(_) => q, U := IncStep(maxSize, tr, step, size, p, T);
    case Drop(_, _) => DropStep(maxSize, tr, step, size, p, T);
    case DropFree(_, _) => DropStep(maxSize, tr, step, size, p, T);
    case Room(_) =>
      if step.choice.Victim? {
        VictimStep(maxSize, tr, step, size, p, T);
      } else {
        q, U := EnoughStep(maxSize, tr, step, size, p, T);
      }
  }

  lemma StepInv(maxSize: nat, tr: Traced, step: Step, size: nat, p: E.Part, T: multiset<E.Answer>)
    returns (q: E.Part, U: multiset<E.Answer>)
    requires Inv(maxSize, tr, p, T) && CanStep(maxSize, tr, step, size)
    ensures Inv(maxSize, Next(tr, step, size), q, U)
  {
    q, U := StepMatches(maxSize, tr, step, size, p, T);
    StepOk(tr.st, step);
    FocusOk(tr.st, step.thread);
    SizesKept(maxSize, tr, step, size);
  }

  // The order in which the lock was acquired.

  function Queries(log: seq<(nat, System.Event)>): seq<(nat, E.Op)> {
    if log == [] then [] else
      var last := log[|log| - 1];
      Queries(log[..|log| - 1]) + (if last.1.op.Release? then [] else [(last.0, last.1.op)])
  }

  lemma QueriesSnoc(log: seq<(nat, System.Event)>, x: (nat, System.Event))
    ensures Queries(log + [x]) == Queries(log) + (if x.1.op.Release? then [] else [(x.0, x.1.op)])
  {
    assert (log + [x])[..|log + [x]| - 1] == log;
  }

  /** The call that holds the lock and has not taken effect. */
  function Current(mem: map<Id, Cell>, t: nat, pc: Pc, size: nat): seq<(nat, E.Op)> {
    match pc
    case Find(call) => [(t, OpOf(call, size))]
    case Check(id) => if id in mem then [(t, E.Lookup(mem[id].key))] else []
    case Inc(id) => if id in mem then [(t, E.Lookup(mem[id].key))] else []
    case Drop(_, key) => [(t, E.Insert(key, size))]
    case DropFree(_, key) => [(t, E.Insert(key, size))]
    case Room(key) => [(t, E.Insert(key, size))]
    case _ => []
  }

  function Pending(tr: Traced): seq<(nat, E.Op)> {
    match tr.st.holder
    case None => []
    case Some(t) =>
      if t < |tr.st.threads| && t < |tr.sizes| then Current(tr.st.mem, t, tr.st.threads[t], tr.sizes[t]) else []
  }

  ghost predicate OrderOk(tr: Traced) {
    tr.grants == Queries(tr.log) + Pending(tr)
  }

  lemma PendingKept(maxSize: nat, tr: Traced, step: Step, size: nat)
    requires StateOk(tr.st) && CanStep(maxSize, tr, step, size)
    requires var pc := tr.st.threads[step.thread]; !NeedsLock(pc) && !pc.Want?
    ensures Pending(Next(tr, step, size)) == Pending(tr)
  {
    FocusOk(tr.st, step.thread);
    assert PcOk(tr.st, step.thread);
    OneThreadMoves(tr.st, step);
    HolderSame(tr.st, step);
    if tr.st.holder.Some? && tr.st.holder.value < |tr.st.threads| {
      var h := tr.st.holder.value;
      assert PcOk(tr.st, h);
      if tr.st.threads[h].Check? || tr.st.threads[h].Inc? { KeysKept(tr.st, step, tr.st.threads[h].id); }
    }
  }

  lemma OutsideEvent(tr: Traced, step: Step)
    requires step.thread < |tr.st.threads| == |tr.sizes|
    requires var pc := tr.st.threads[step.thread]; !NeedsLock(pc)
    ensures EventOf(tr, step).Some? ==> EventOf(tr, step).value.op.Release?
  {
  }

  lemma OrderOutside(maxSize: nat, tr: Traced, step: Step, size: nat)
    requires StateOk(tr.st) && CanStep(maxSize, tr, step, size) && OrderOk(tr)
    requires var pc := tr.st.threads[step.thread]; !NeedsLock(pc) && !pc.Want?
    ensures OrderOk(Next(tr, step, size))
  {
    var event := EventOf(tr, step);
    PendingKept(maxSize, tr, step, size);
    OutsideEvent(tr, step);
    if event.Some? { QueriesSnoc(tr.log, (step.thread, event.value)); }
  }

  lemma OrderWant(maxSize: nat, tr: Traced, step: Step, size: nat)
    requires StateOk(tr.st) && CanStep(maxSize, tr, step, size) && OrderOk(tr) && tr.st.threads[step.thread].Want?
    ensures OrderOk(Next(tr, step, size))
  {
  }

  lemma InsideFocus(st: State, step: Step)
    requires StateOk(st) && Enabled(st, step) && NeedsLock(st.threads[step.thread])
    ensures Focused(st, step.thread) && st.holder == Some(step.thread)
  {
    FocusOk(st, step.thread);
    assert PcOk(st, step.thread);
  }

  lemma OrderInside(maxSize: nat, tr: Traced, step: Step, size: nat)
    requires StateOk(tr.st) && CanStep(maxSize, tr, step, size) && OrderOk(tr) && NeedsLock(tr.st.threads[step.thread])
    ensures OrderOk(Next(tr, step, size))
  {
    InsideFocus(tr.st, step);
    InsideOrder(tr, step, size);
  }

  lemma InsideOrder(tr: Traced, step: Step, size: nat)
    requires Enabled(tr.st, step) && |tr.sizes| == |tr.st.threads| && NeedsLock(tr.st.threads[step.thread])
    requires Focused(tr.st, step.thread) && tr.st.holder == Some(step.thread) && OrderOk(tr)
    ensures OrderOk(Next(tr, step, size))
  {
    InsidePending(tr, step, size);
    Taken(tr.grants, tr.log, step.thread, EventOf(tr, step), Pending(tr), Pending(Next(tr, step, size)));
  }

  lemma Taken(grants: seq<(nat, E.Op)>, log: seq<(nat, System.Event)>, t: nat, event: Option<System.Event>,
              before: seq<(nat, E.Op)>, after: seq<(nat, E.Op)>)
    requires grants == Queries(log) + before
    requires match event
             case None => after == before
             case Some(e) => !e.op.Release? && before == [(t, e.op)] && after == []
    ensures grants == Queries(if event.Some? then log + [(t, event.value)] else log) + after
  {
    if event.Some? { QueriesSnoc(log, (t, event.value)); }
  }

  lemma InsidePending(tr: Traced, step: Step, size: nat)
    requires Enabled(tr.st, step) && |tr.sizes| == |tr.st.threads| && NeedsLock(tr.st.threads[step.thread])
    requires Focused(tr.st, step.thread) && tr.st.holder == Some(step.thread)
    ensures match EventOf(tr, step)
            case None => Pending(Next(tr, step, size)) == Pending(tr)
            case Some(e) =>
              !e.op.Release? && Pending(tr) == [(step.thread, e.op)]
              && Pending(Next(tr, step, size)) == []
  {
    InsideCurrent(tr, step, tr.sizes[step.thread]);
  }

  /** Inside the lock the current call stays the same until it takes effect. */
  lemma InsideCurrent(tr: Traced, step: Step, size: nat)
    requires Enabled(tr.st, step) && |tr.sizes| == |tr.st.threads| && NeedsLock(tr.st.threads[step.thread])
    requires Focused(tr.st, step.thread) && tr.st.holder == Some(step.thread) && size == tr.sizes[step.thread]
    ensures var t, r, event := step.thread, Apply(tr.st, step), EventOf(tr, step);
            && |r.threads| == |tr.st.threads|
            && (r.holder == Some(t) || (r.holder == None && tr.st.threads[t].Leave?))
            && (if event.Some? then
                  r.threads[t].Leave? && !event.value.op.Release?
                  && Current(tr.st.mem, t, tr.st.threads[t], size) == [(t, event.value.op)]
                else Current(r.mem, t, r.threads[t], size) == Current(tr.st.mem, t, tr.st.threads[t], size))
  {
  }

  lemma StepOrder(maxSize: nat, tr: Traced, step: Step, size: nat)
    requires StateOk(tr.st) && CanStep(maxSize, tr, step, size) && OrderOk(tr)
    ensures OrderOk(Next(tr, step, size))
  {
    if NeedsLock(tr.st.threads[step.thread]) {
      OrderInside(maxSize, tr, step, size);
    } else if tr.st.threads[step.thread].Want? {
      OrderWant(maxSize, tr, step, size);
    } else {
      OrderOutside(maxSize, tr, step, size);
    }
  }

  // Runs.

  /** Callers hold values as readers or inserters only. */
  ghost predicate HeldOk(st: State) {
    forall k :: k in st.held ==> k.kind == Reader || k.kind == Inserter
  }

  lemma HeldStays(st: State, step: Step)
    requires Enabled(st, step) && Focused(st, step.thread) && PcOk(st, step.thread) && HeldOk(st)
    ensures HeldOk(Apply(st, step))
  {
  }

  ghost predicate Good(maxSize: nat, tr: Traced, p: E.Part, T: multiset<E.Answer>) {
    Inv(maxSize, tr, p, T) && OrderOk(tr) && HeldOk(tr.st)
  }

  ghost predicate Linked(maxSize: nat, tr: Traced, step: (Step, nat), next: Traced) {
    CanStep(maxSize, tr, step.0, step.1) && next == Next(tr, step.0, step.1)
  }

  ghost predicate IsRun(maxSize: nat, n: nat, run: seq<Traced>, steps: seq<(Step, nat)>) {
    && |run| == |steps| + 1 && run[0] == Begin(n)
    && forall i :: 0 <= i < |steps| ==> Linked(maxSize, run[i], steps[i], run[i + 1])
  }

  lemma BeginGood(maxSize: nat, n: nat)
    ensures Good(maxSize, Begin(n), E.Empty(maxSize), multiset{})
  {
    BeginOk(n);
    var tr := Begin(n);
    assert Safety.LogOps([]) == [] && Safety.LogAnswers([]) == [];
    forall id: Id ensures RefsOf(tr.st, multiset{}, id) {
      NobodyCarries(n, Token(id, Inserter));
      NobodyCarries(n, Token(id, Reader));
    }
  }

  lemma StepGood(maxSize: nat, tr: Traced, step: (Step, nat), next: Traced, p: E.Part, T: multiset<E.Answer>)
    returns (q: E.Part, U: multiset<E.Answer>)
    requires Good(maxSize, tr, p, T) && Linked(maxSize, tr, step, next)
    ensures Good(maxSize, next, q, U)
  {
    q, U := StepInv(maxSize, tr, step.0, step.1, p, T);
    StepOrder(maxSize, tr, step.0, step.1);
    FocusOk(tr.st, step.0.thread);
    assert PcOk(tr.st, step.0.thread);
    HeldStays(tr.st, step.0);
  }

  lemma {:induction false} RunGood(maxSize: nat, n: nat, run: seq<Traced>, steps: seq<(Step, nat)>, i: nat)
    returns (p: E.Part, T: multiset<E.Answer>)
    requires IsRun(maxSize, n, run, steps) && i < |run|
    ensures Good(maxSize, run[i], p, T)
  {
    if i == 0 {
      BeginGood(maxSize, n);
      p, T := E.Empty(maxSize), multiset{};
    } else {
      var q, U := RunGood(maxSize, n, run, steps, i - 1);
      assert Linked(maxSize, run[i - 1], steps[i - 1], run[i - 1 + 1]);
      p, T := StepGood(maxSize, run[i - 1], steps[i - 1], run[i], q, U);
    }
  }

  // With the lock free.

  lemma {:induction false} NobodyHas(pcs: seq<Pc>, k: Token)
    requires forall t :: 0 <= t < |pcs| ==> Carry(pcs[t]) != Some(k)
    ensures Carried(pcs, k) == 0
  {
    if pcs != [] { NobodyHas(pcs[..|pcs| - 1], k); }
  }

  lemma NothingUnlinked(st: State, id: Id)
    requires StateOk(st) && HeldOk(st) && st.holder == None
    ensures Count(st, id, Unlinked) == 0
  {
    forall t | 0 <= t < |st.threads| ensures Carry(st.threads[t]) != Some(Token(id, Unlinked)) {
      assert PcOk(st, t);
    }
    NobodyHas(st.threads, Token(id, Unlinked));
  }

  /** The elements that are allocated and not about to be freed. */
  ghost predicate Live(st: State, id: Id) {
    id in st.mem && Count(st, id, Duty) == 0
  }

  lemma LiveElements(maxSize: nat, tr: Traced, p: E.Part, T: multiset<E.Answer>, id: Id)
    requires Good(maxSize, tr, p, T) && tr.st.holder == None
    ensures id in p.elems <==> Live(tr.st, id)
  {
    PartOkOf(maxSize, tr.log, p, T);
    assert E.IdOk(E.Atomics, p.elems, p.next, E.Ids(p.lru), T, id);
    assert IdOk(tr.st, id) && RefsOf(tr.st, T, id);
    NothingUnlinked(tr.st, id);
  }

  /** Linearizability of a locked partition: in every state of every run of any number of
      threads, the requests that have taken effect, in the order in which they did, are a
      sequential run of the partition with atomic counts.  It gave their answers; between
      calls it has the LRU list and the live elements of the locked partition; and the
      lookups and inserts in it are the calls in the order in which they got the lock, but
      for the one that may hold it now. */
  lemma LockedIsSequential(maxSize: nat, n: nat, run: seq<Traced>, steps: seq<(Step, nat)>, i: nat)
    requires IsRun(maxSize, n, run, steps) && i < |run|
    ensures var tr, p0 := run[i], E.Empty(maxSize);
            var ops := Safety.LogOps(tr.log);
            var p := Lifetime.Run(E.Atomics, p0, ops);
            && Lifetime.Disciplined(E.Atomics, p0, ops)
            && Safety.LogAnswers(tr.log) == Lifetime.Answers(E.Atomics, p0, ops)
            && tr.grants == Queries(tr.log) + Pending(tr) && |Pending(tr)| <= 1
            && (tr.st.holder == None ==>
                  Pending(tr) == [] && tr.lru == p.lru && forall id: Id :: id in p.elems <==> Live(tr.st, id))
  {
    var p, T := RunGood(maxSize, n, run, steps, i);
    if run[i].st.holder == None {
      forall id: Id ensures id in p.elems <==> Live(run[i].st, id) { LiveElements(maxSize, run[i], p, T, id); }
    }
  }

  /** So a locked partition, whatever its threads interleave, and a partition behind a
      server that have served the same requests in the same order have given the same
      answers and have the same recency list and the same live elements. */
  lemma DesignsAgreeInterleaved(n: nat, nclients: nat, maxSize: nat, run: seq<System.State>, steps: seq<System.Step>,
                                i: nat, s: nat, m: nat, locked: seq<Traced>, moves: seq<(Step, nat)>, j: nat)
    requires System.IsRun(n, nclients, maxSize, run, steps) && i < |run| && s < n
    requires IsRun(maxSize, m, locked, moves) && j < |locked| && locked[j].st.holder == None
    requires s < |run[i].servers| && Safety.LogOps(run[i].servers[s].log) == Safety.LogOps(locked[j].log)
    ensures var sv, tr := run[i].servers[s], locked[j];
            && Safety.LogAnswers(sv.log) == Safety.LogAnswers(tr.log)
            && sv.part.lru == tr.lru
            && forall id: Id :: id in sv.part.elems <==> Live(tr.st, id)
  {
    Safety.RunSafe(n, nclients, maxSize, run, steps, i);
    var log := run[i].servers[s].log;
    assert Safety.TableOk(n, maxSize, run[i], s);
    LockedIsSequential(maxSize, m, locked, moves, j);
    Lifetime.SchemesAgree(maxSize, Safety.LogOps(log));
  }
}
