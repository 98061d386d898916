/** One partition of the locking design: lookups, inserts and evictions run under the
    partition lock; references are given back by atomic operations outside it.  One step
    per atomic operation, any number of threads, any choice of victims. */
module LockedTable {
  import opened Basics

  type Id = nat

  /** What a reference entitles to: reading, filling in, being taken off the count after
      leaving the table, or freeing after a count of zero was seen. */
  datatype Kind = Reader | Inserter | Unlinked | Duty

  datatype Token = Token(id: Id, kind: Kind)

  /** ref_count: `notReady` is the top bit, `count` the bits below it. */
  datatype Cell = Cell(key: nat, count: nat, notReady: bool)

  datatype Call = Lookup(key: nat) | Insert(key: nat)

  datatype Pc =
    | Idle
    | Want(call: Call)             // in anderson_acquire
    | Find(call: Call)             // hash_lookup, lock held
    | Check(id: Id)                // is_value_ready, lock held
    | Inc(id: Id)                  // the atomic increment, lock held
    | Drop(id: Id, key: nat)       // atomic_release_value_ of an unlinked element, lock held
    | DropFree(id: Id, key: nat)   // its free, lock held
    | Room(key: nat)               // the eviction loop, lock held
    | Leave(got: Option<Token>)    // anderson_release, with the value to return
    | Sub(id: Id)                  // atomic_release_value
    | And(id: Id)                  // atomic_mark_ready
    | Free(id: Id)                 // the free in one of those two

  datatype Choice =
    | Start(call: Call) | GiveBack(token: Token)   // an idle thread
    | Found(id: Id) | Absent                       // the result of a search
    | Victim(id: Id) | Enough                      // the eviction loop
    | Go

  /** `held` are the values callers have; `freed` is history; `fault` records a touch of
      memory that is not allocated, or a count that would go below zero. */
  datatype State = State(
    mem: map<Id, Cell>, table: set<Id>, next: Id, held: multiset<Token>,
    threads: seq<Pc>, holder: Option<nat>, freed: seq<Id>, fault: bool)

  datatype Step = Step(thread: nat, choice: Choice)

  function Carry(pc: Pc): Option<Token> {
    match pc
    case Drop(id, _) => Some(Token(id, Unlinked))
    case DropFree(id, _) => Some(Token(id, Duty))
    case Leave(got) => got
    case Sub(id) => Some(Token(id, Reader))
    case And(id) => Some(Token(id, Inserter))
    case Free(id) => Some(Token(id, Duty))
    case _ => None
  }

  predicate NeedsLock(pc: Pc) {
    pc.Find? || pc.Check? || pc.Inc? || pc.Drop? || pc.DropFree? || pc.Room? || pc.Leave?
  }

  predicate IsEntry(st: State, id: Id, key: nat) {
    id in st.table && id in st.mem && st.mem[id].key == key
  }

  ghost predicate Enabled(st: State, step: Step) {
    step.thread < |st.threads| &&
    var pc, choice := st.threads[step.thread], step.choice;
    if pc.Idle? then
      choice.Start?
        || (choice.GiveBack? && choice.token in st.held
            && (choice.token.kind == Reader || choice.token.kind == Inserter))
    else if pc.Want? then choice.Go? && st.holder == None
    else if pc.Find? then
      if choice.Found? then IsEntry(st, choice.id, pc.call.key)
      else choice.Absent? && forall id :: id in st.table ==> !IsEntry(st, id, pc.call.key)
    else if pc.Room? then (choice.Victim? && choice.id in st.table) || choice.Enough?
    else choice.Go?
  }

  function Goto(st: State, t: nat, pc: Pc): State
    requires t < |st.threads|
  {
    st.(threads := st.threads[t := pc])
  }

  function SetCell(st: State, id: Id, c: Cell): State {
    st.(mem := st.mem[id := c])
  }

  function Release(st: State, id: Id): State {
    if id in st.mem then st.(mem := map i | i in st.mem && i != id :: st.mem[i], freed := st.freed + [id])
    else st.(fault := true)
  }

  /** __sync_sub_and_fetch(&ref_count, 1), going to `zero` if it saw zero. */
  function SubAndFetch(st: State, t: nat, id: Id, zero: Pc, other: Pc): State
    requires t < |st.threads|
  {
    if id !in st.mem || st.mem[id].count == 0 then st.(fault := true)
    else
      var c := st.mem[id].(count := st.mem[id].count - 1);
      Goto(SetCell(st, id, c), t, if c.count == 0 && !c.notReady then zero else other)
  }

  function AndAndFetch(st: State, t: nat, id: Id, zero: Pc, other: Pc): State
    requires t < |st.threads|
  {
    if id !in st.mem then st.(fault := true)
    else
      var c := st.mem[id].(notReady := false);
      Goto(SetCell(st, id, c), t, if c.count == 0 then zero else other)
  }

  function Apply(st: State, step: Step): State
    requires step.thread < |st.threads|
  {
    var t := step.thread;
    match st.threads[t]
    case Idle =>
      (match step.choice
       case Start(call) => Goto(st, t, Want(call))
       case GiveBack(k) => Goto(st.(held := st.held - multiset{k}), t,
                                if k.kind == Inserter then And(k.id) else Sub(k.id))
       case _ => st)
    case Want(call) => Goto(st.(holder := Some(t)), t, Find(call))
    case Find(call) =>
      (match (call, step.choice)
       case (Lookup(_), Found(id)) => Goto(st, t, Check(id))
       case (Insert(key), Found(id)) => Goto(st.(table := st.table - {id}), t, Drop(id, key))
       case (Lookup(_), _) => Goto(st, t, Leave(None))
       case (Insert(key), _) => Goto(st, t, Room(key)))
    case Check(id) =>
      if id !in st.mem then st.(fault := true)
      else if st.mem[id].notReady then Goto(st, t, Leave(None))
      else Goto(st, t, Inc(id))
    case Inc(id) =>
      if id !in st.mem then st.(fault := true)
      else Goto(SetCell(st, id, st.mem[id].(count := st.mem[id].count + 1)), t, Leave(Some(Token(id, Reader))))
    case Drop(id, key) => SubAndFetch(st, t, id, DropFree(id, key), Room(key))
    case DropFree(id, key) => Goto(Release(st, id), t, Room(key))
    case Room(key) =>
      (match step.choice
       case Victim(id) => Goto(st.(table := st.table - {id}), t, Drop(id, key))
       case _ =>
         Goto(SetCell(st, st.next, Cell(key, 1, true)).(table := st.table + {st.next}, next := st.next + 1),
              t, Leave(Some(Token(st.next, Inserter)))))
    case Leave(got) =>
      Goto(st.(holder := None, held := if got.Some? then st.held + multiset{got.value} else st.held), t, Idle)
    case Sub(id) => SubAndFetch(st, t, id, Free(id), Idle)
    case And(id) => AndAndFetch(st, t, id, Free(id), Idle)
    case Free(id) => Goto(Release(st, id), t, Idle)
  }

  // Counting references.

  function Has(pc: Pc, k: Token): nat {
    if Carry(pc) == Some(k) then 1 else 0
  }

  function Carried(pcs: seq<Pc>, k: Token): nat {
    if pcs == [] then 0 else Carried(pcs[..|pcs| - 1], k) + Has(pcs[|pcs| - 1], k)
  }

  lemma {:induction false} CarriedUpdate(pcs: seq<Pc>, t: nat, pc: Pc, k: Token)
    requires t < |pcs|
    ensures Carried(pcs[t := pc], k) + Has(pcs[t], k) == Carried(pcs, k) + Has(pc, k)
    decreases |pcs|
  {
    var n := |pcs| - 1;
    var after := pcs[t := pc];
    if t == n {
      assert after[..n] == pcs[..n];
    } else {
      assert after[..n] == pcs[..n][t := pc];
      CarriedUpdate(pcs[..n], t, pc, k);
    }
  }

  lemma {:induction false} CarriedAtLeast(pcs: seq<Pc>, t: nat, k: Token)
    requires t < |pcs|
    ensures Carried(pcs, k) >= Has(pcs[t], k)
    decreases |pcs|
  {
    var n := |pcs| - 1;
    if t < n { CarriedAtLeast(pcs[..n], t, k); }
  }

  function Count(st: State, id: Id, kind: Kind): nat {
    st.held[Token(id, kind)] + Carried(st.threads, Token(id, kind))
  }

  // The invariant.

  predicate CellOk(c: Cell, inTable: bool, readers: nat, inserters: nat, unlinked: nat, duties: nat) {
    && c.count == (if inTable then 1 else 0) + readers + unlinked
    && inserters <= 1 && duties <= 1
    && (c.notReady <==> inserters == 1)
    && (readers > 0 ==> inserters == 0)
    && (duties == 1 ==> !inTable && readers == inserters == unlinked == 0)
  }

  /** An element is allocated exactly when the table, a reference, or the thread about to
      free it names it. */
  ghost predicate ElemOk(mem: map<Id, Cell>, next: Id, id: Id, inTable: bool, r: nat, i: nat, u: nat, d: nat) {
    && (id in mem <==> inTable || r + i + u + d > 0)
    && (id in mem ==> id < next && CellOk(mem[id], inTable, r, i, u, d))
  }

  ghost predicate IdOk(st: State, id: Id) {
    ElemOk(st.mem, st.next, id, id in st.table,
           Count(st, id, Reader), Count(st, id, Inserter), Count(st, id, Unlinked), Count(st, id, Duty))
  }

  ghost predicate PcOk(st: State, t: nat)
    requires t < |st.threads|
  {
    && (NeedsLock(st.threads[t]) <==> st.holder == Some(t))
    && (st.threads[t].Check? ==> st.threads[t].id in st.table)
    && (st.threads[t].Inc? ==>
          st.threads[t].id in st.table && st.threads[t].id in st.mem && !st.mem[st.threads[t].id].notReady)
    && (st.threads[t].Leave? && st.threads[t].got.Some? ==> st.threads[t].got.value.kind in {Reader, Inserter})
  }

  ghost predicate FreedOk(st: State) {
    && (forall i, j :: 0 <= i < j < |st.freed| ==> st.freed[i] != st.freed[j])
    && (forall id: Id :: id in st.freed <==> id < st.next && id !in st.mem)
  }

  ghost predicate StateOk(st: State) {
    && !st.fault && FreedOk(st)
    && (forall id :: IdOk(st, id))
    && (forall t: nat :: t < |st.threads| ==> PcOk(st, t))
  }

  lemma CountMove(st: State, t: nat, pc: Pc, r: State, k: Token)
    requires t < |st.threads| && r.threads == st.threads[t := pc]
    ensures Count(r, k.id, k.kind) + Has(st.threads[t], k) + st.held[k]
            == Count(st, k.id, k.kind) + Has(pc, k) + r.held[k]
    ensures Count(st, k.id, k.kind) >= Has(st.threads[t], k) + st.held[k]
  {
    assert k == Token(k.id, k.kind);
    CarriedUpdate(st.threads, t, pc, k);
    CarriedAtLeast(st.threads, t, k);
  }

  /** How many references of this kind to this element a move from one place to another makes. */
  function Gain(before: Pc, after: Pc, held: multiset<Token>, held': multiset<Token>, k: Token): int {
    Has(after, k) + held'[k] - Has(before, k) - held[k]
  }

  /** The references to one element after thread t moves to pc. */
  lemma CountMoves(st: State, t: nat, pc: Pc, r: State, id: Id)
    requires t < |st.threads| && r.threads == st.threads[t := pc]
    ensures Count(r, id, Reader) == Count(st, id, Reader) + Gain(st.threads[t], pc, st.held, r.held, Token(id, Reader))
    ensures Count(r, id, Inserter)
            == Count(st, id, Inserter) + Gain(st.threads[t], pc, st.held, r.held, Token(id, Inserter))
    ensures Count(r, id, Unlinked)
            == Count(st, id, Unlinked) + Gain(st.threads[t], pc, st.held, r.held, Token(id, Unlinked))
    ensures Count(r, id, Duty) == Count(st, id, Duty) + Gain(st.threads[t], pc, st.held, r.held, Token(id, Duty))
  {
    CountMove(st, t, pc, r, Token(id, Reader));
    CountMove(st, t, pc, r, Token(id, Inserter));
    CountMove(st, t, pc, r, Token(id, Unlinked));
    CountMove(st, t, pc, r, Token(id, Duty));
  }

  /** What thread t refers to is allocated. */
  ghost predicate Focused(st: State, t: nat)
    requires t < |st.threads|
  {
    && (Carry(st.threads[t]).Some? ==>
          var k := Carry(st.threads[t]).value;
          k.id in st.mem && (k.kind == Reader || k.kind == Unlinked ==> st.mem[k.id].count > 0))
    && (st.threads[t].Check? || st.threads[t].Inc? ==> st.threads[t].id in st.mem)
  }

  lemma CarriedIsLive(st: State, k: Token)
    requires IdOk(st, k.id) && Carried(st.threads, k) > 0
    ensures k.id in st.mem
    ensures k.kind == Reader || k.kind == Unlinked ==> st.mem[k.id].count > 0
  {
    match k.kind
    case Reader => assert Count(st, k.id, Reader) > 0;
    case Inserter => assert Count(st, k.id, Inserter) > 0;
    case Unlinked => assert Count(st, k.id, Unlinked) > 0;
    case Duty => assert Count(st, k.id, Duty) > 0;
  }

  lemma FocusOk(st: State, t: nat)
    requires StateOk(st) && t < |st.threads|
    ensures Focused(st, t)
  {
    if Carry(st.threads[t]).Some? {
      var k := Carry(st.threads[t]).value;
      CarriedAtLeast(st.threads, t, k);
      CarriedIsLive(st, k);
    }
    assert PcOk(st, t);
    if st.threads[t].Check? { assert IdOk(st, st.threads[t].id); }
  }

  ghost predicate Ready(st: State, step: Step, id: Id) {
    && Enabled(st, step) && Focused(st, step.thread) && PcOk(st, step.thread) && IdOk(st, id)
    && IdOk(st, st.next) && !st.fault
  }

  lemma MoveIdOk(st: State, step: Step, id: Id)
    requires Ready(st, step, id)
    requires var pc := st.threads[step.thread]; pc.Want? || pc.Check? || (pc.Idle? && step.choice.Start?)
    ensures IdOk(Apply(st, step), id) && !Apply(st, step).fault
  {
    var t, r := step.thread, Apply(st, step);
    CountMoves(st, t, r.threads[t], r, id);
  }

  /** Handing a reference over changes nothing that is counted. */
  lemma HandOver(st: State, r: State, t: nat, pc: Pc, id: Id)
    requires t < |st.threads| && IdOk(st, id)
    requires r.mem == st.mem && r.table == st.table && r.next == st.next && r.threads == st.threads[t := pc]
    requires forall k: Token :: Gain(st.threads[t], pc, st.held, r.held, k) == 0
    ensures IdOk(r, id)
  {
    CountMoves(st, t, pc, r, id);
  }

  lemma GiveBackIdOk(st: State, step: Step, id: Id)
    requires Ready(st, step, id) && st.threads[step.thread].Idle? && step.choice.GiveBack?
    ensures IdOk(Apply(st, step), id) && !Apply(st, step).fault
  {
    var t, k, r := step.thread, step.choice.token, Apply(st, step);
    assert Carry(r.threads[t]) == Some(k);
    HandOver(st, r, t, r.threads[t], id);
  }

  lemma LeaveIdOk(st: State, step: Step, id: Id)
    requires Ready(st, step, id) && st.threads[step.thread].Leave?
    ensures IdOk(Apply(st, step), id) && !Apply(st, step).fault
  {
    var t, r := step.thread, Apply(st, step);
    HandOver(st, r, t, Idle, id);
  }

  lemma LookupIdOk(st: State, step: Step, id: Id)
    requires Ready(st, step, id) && st.threads[step.thread].Find? && st.threads[step.thread].call.Lookup?
    ensures IdOk(Apply(st, step), id) && !Apply(st, step).fault
  {
    var t, r := step.thread, Apply(st, step);
    CountMoves(st, t, r.threads[t], r, id);
  }

  lemma InsertIdOk(st: State, step: Step, id: Id)
    requires Ready(st, step, id) && st.threads[step.thread].Find? && st.threads[step.thread].call.Insert?
    ensures IdOk(Apply(st, step), id) && !Apply(st, step).fault
  {
    var t, r := step.thread, Apply(st, step);
    CountMoves(st, t, r.threads[t], r, id);
  }

  lemma VictimIdOk(st: State, step: Step, id: Id)
    requires Ready(st, step, id) && st.threads[step.thread].Room? && step.choice.Victim?
    ensures IdOk(Apply(st, step), id) && !Apply(st, step).fault
  {
    var t, r := step.thread, Apply(st, step);
    CountMoves(st, t, r.threads[t], r, id);
  }

  lemma NewIdOk(st: State, step: Step, id: Id)
    requires Ready(st, step, id) && st.threads[step.thread].Room? && step.choice.Enough?
    ensures IdOk(Apply(st, step), id) && !Apply(st, step).fault
  {
    var t, r := step.thread, Apply(st, step);
    CountMoves(st, t, r.threads[t], r, id);
  }

  lemma IncIdOk(st: State, step: Step, id: Id)
    requires Ready(st, step, id) && st.threads[step.thread].Inc?
    ensures IdOk(Apply(st, step), id) && !Apply(st, step).fault
  {
    var t, r := step.thread, Apply(st, step);
    CountMoves(st, t, r.threads[t], r, id);
  }

  lemma SubIdOk(st: State, t: nat, e: Id, zero: Pc, other: Pc, id: Id)
    requires t < |st.threads| && Focused(st, t) && IdOk(st, id) && !st.fault
    requires Carry(st.threads[t]) == Some(Token(e, Reader)) || Carry(st.threads[t]) == Some(Token(e, Unlinked))
    requires Carry(zero) == Some(Token(e, Duty)) && Carry(other) == None
    ensures var r := SubAndFetch(st, t, e, zero, other); IdOk(r, id) && !r.fault
  {
    var r := SubAndFetch(st, t, e, zero, other);
    CountMoves(st, t, r.threads[t], r, id);
  }

  lemma AndIdOk(st: State, step: Step, id: Id)
    requires Ready(st, step, id) && st.threads[step.thread].And?
    ensures IdOk(Apply(st, step), id) && !Apply(st, step).fault
  {
    var t, r := step.thread, Apply(st, step);
    CountMoves(st, t, r.threads[t], r, id);
  }

  lemma FreeIdOk(st: State, step: Step, id: Id)
    requires Ready(st, step, id)
    requires var pc := st.threads[step.thread]; pc.DropFree? || pc.Free?
    ensures IdOk(Apply(st, step), id) && !Apply(st, step).fault
  {
    var t, r := step.thread, Apply(st, step);
    CountMoves(st, t, r.threads[t], r, id);
  }

  lemma StepIdOk(st: State, step: Step, id: Id)
    requires Ready(st, step, id)
    ensures IdOk(Apply(st, step), id) && !Apply(st, step).fault
  {
    var t := step.thread;
    match st.threads[t]
    case Idle => if step.choice.Start? { MoveIdOk(st, step, id); } else { GiveBackIdOk(st, step, id); }
    case Want(_) => MoveIdOk(st, step, id);
    case Check(_) => MoveIdOk(st, step, id);
    case Leave(_) => LeaveIdOk(st, step, id);
    case Find(call) => if call.Lookup? { LookupIdOk(st, step, id); } else { InsertIdOk(st, step, id); }
    case Room(_) => if step.choice.Victim? { VictimIdOk(st, step, id); } else { NewIdOk(st, step, id); }
    case DropFree(_, _) => FreeIdOk(st, step, id);
    case Free(_) => FreeIdOk(st, step, id);
    case Inc(_) => IncIdOk(st, step, id);
    case Drop(e, key) => SubIdOk(st, t, e, DropFree(e, key), Room(key), id);
    case Sub(e) => SubIdOk(st, t, e, Free(e), Idle, id);
    case And(_) => AndIdOk(st, step, id);
  }

  lemma LockTaken(st: State, step: Step)
    requires Enabled(st, step) && Focused(st, step.thread) && PcOk(st, step.thread)
    requires !NeedsLock(st.threads[step.thread])
    ensures NeedsLock(Apply(st, step).threads[step.thread]) <==> Apply(st, step).holder == Some(step.thread)
  {
  }

  lemma LockLooking(st: State, step: Step)
    requires Enabled(st, step) && Focused(st, step.thread) && PcOk(st, step.thread)
    requires var pc := st.threads[step.thread]; pc.Find? || pc.Check? || pc.Inc?
    ensures NeedsLock(Apply(st, step).threads[step.thread]) <==> Apply(st, step).holder == Some(step.thread)
  {
  }

  lemma LockChanging(st: State, step: Step)
    requires Enabled(st, step) && Focused(st, step.thread) && PcOk(st, step.thread)
    requires var pc := st.threads[step.thread]; pc.Drop? || pc.DropFree? || pc.Room? || pc.Leave?
    ensures NeedsLock(Apply(st, step).threads[step.thread]) <==> Apply(st, step).holder == Some(step.thread)
  {
  }

  lemma FocusReached(st: State, step: Step)
    requires Enabled(st, step) && Focused(st, step.thread) && PcOk(st, step.thread)
    requires var pc := st.threads[step.thread]; pc.Find? || pc.Check? || pc.Inc?
    ensures var r := Apply(st, step);
            var pc := r.threads[step.thread];
            && (pc.Check? || pc.Inc? ==> pc.id in r.table && pc.id in r.mem)
            && (pc.Inc? ==> !r.mem[pc.id].notReady)
            && (pc.Leave? && pc.got.Some? ==> pc.got.value.kind in {Reader, Inserter})
  {
  }

  lemma FocusLeft(st: State, step: Step)
    requires Enabled(st, step) && Focused(st, step.thread) && PcOk(st, step.thread)
    requires var pc := st.threads[step.thread]; !pc.Find? && !pc.Check? && !pc.Inc?
    ensures var pc := Apply(st, step).threads[step.thread];
            !pc.Check? && !pc.Inc? && (pc.Leave? && pc.got.Some? ==> pc.got.value.kind == Inserter)
  {
  }

  lemma OwnPcOk(st: State, step: Step)
    requires Enabled(st, step) && Focused(st, step.thread) && PcOk(st, step.thread)
    ensures PcOk(Apply(st, step), step.thread)
  {
    var pc := st.threads[step.thread];
    if pc.Find? || pc.Check? || pc.Inc? {
      LockLooking(st, step);
      FocusReached(st, step);
    } else {
      if NeedsLock(pc) { LockChanging(st, step); } else { LockTaken(st, step); }
      FocusLeft(st, step);
    }
  }

  /** A thread that does not hold the lock leaves the table alone, and frees nothing that
      is in it. */
  lemma OutsideTheLock(st: State, step: Step)
    requires Enabled(st, step) && Focused(st, step.thread) && !NeedsLock(st.threads[step.thread])
    requires forall id :: IdOk(st, id)
    ensures var r := Apply(st, step);
            && r.table == st.table
            && forall id :: id in st.table ==> id in r.mem && (r.mem[id].notReady ==> st.mem[id].notReady)
  {
    var t, r := step.thread, Apply(st, step);
    forall id | id in st.table ensures id in r.mem && (r.mem[id].notReady ==> st.mem[id].notReady) {
      assert IdOk(st, id);
      if st.threads[t] == Free(id) { CarriedAtLeast(st.threads, t, Token(id, Duty)); }
    }
  }

  lemma OtherPcOk(st: State, step: Step, u: nat)
    requires StateOk(st) && Enabled(st, step) && Focused(st, step.thread)
    requires u < |st.threads| && u != step.thread
    ensures PcOk(Apply(st, step), u)
  {
    assert PcOk(st, u) && PcOk(st, step.thread);
    if !NeedsLock(st.threads[step.thread]) { OutsideTheLock(st, step); }
  }

  lemma FreedRelease(st: State, id: Id)
    requires FreedOk(st) && id in st.mem && id < st.next
    ensures FreedOk(Release(st, id))
  {
    assert id !in st.freed;
    var r := Release(st, id);
    assert forall x :: x in r.freed <==> x in st.freed || x == id;
  }

  lemma MemSame(st: State, step: Step)
    requires Enabled(st, step) && Focused(st, step.thread)
    requires var pc := st.threads[step.thread]; !pc.DropFree? && !pc.Free? && !(pc.Room? && step.choice.Enough?)
    ensures var r := Apply(st, step); r.mem.Keys == st.mem.Keys && r.next == st.next && r.freed == st.freed
  {
  }

  lemma StepFreed(st: State, step: Step)
    requires FreedOk(st) && Enabled(st, step) && Focused(st, step.thread) && IdOk(st, st.next)
    requires forall id :: id in st.mem ==> id < st.next
    ensures FreedOk(Apply(st, step))
  {
    var pc := st.threads[step.thread];
    if pc.DropFree? || pc.Free? {
      FreedRelease(st, pc.id);
    } else if !(pc.Room? && step.choice.Enough?) {
      MemSame(st, step);
      assert forall id :: id in Apply(st, step).mem <==> id in st.mem.Keys;
    }
  }

  lemma StepOk(st: State, step: Step)
    requires StateOk(st) && Enabled(st, step)
    ensures StateOk(Apply(st, step))
  {
    FocusOk(st, step.thread);
    assert PcOk(st, step.thread) && IdOk(st, st.next);
    forall id ensures IdOk(Apply(st, step), id) && !Apply(st, step).fault {
      assert IdOk(st, id);
      StepIdOk(st, step, id);
    }
    assert !Apply(st, step).fault by { StepIdOk(st, step, 0); }
    forall id | id in st.mem ensures id < st.next { assert IdOk(st, id); }
    StepFreed(st, step);
    forall u: nat | u < |Apply(st, step).threads| ensures PcOk(Apply(st, step), u) {
      if u == step.thread { OwnPcOk(st, step); } else { OtherPcOk(st, step, u); }
    }
  }

  // Runs.

  function Begin(nthreads: nat): State {
    State(map[], {}, 0, multiset{}, seq(nthreads, _ => Idle), None, [], false)
  }

  ghost predicate Linked(st: State, step: Step, next: State) {
    Enabled(st, step) && next == Apply(st, step)
  }

  ghost predicate IsRun(nthreads: nat, run: seq<State>, steps: seq<Step>) {
    && |run| == |steps| + 1 && run[0] == Begin(nthreads)
    && forall i :: 0 <= i < |steps| ==> Linked(run[i], steps[i], run[i + 1])
  }

  lemma {:induction false} NobodyCarries(n: nat, k: Token)
    ensures Carried(seq(n, _ => Idle), k) == 0
  {
    if n > 0 {
      var pcs: seq<Pc> := seq(n, _ => Idle);
      assert pcs[..n - 1] == seq(n - 1, _ => Idle);
      NobodyCarries(n - 1, k);
    }
  }

  lemma BeginOk(n: nat)
    ensures StateOk(Begin(n))
  {
    assert Begin(n).freed == [];
    forall id ensures IdOk(Begin(n), id) {
      NobodyCarries(n, Token(id, Reader));
      NobodyCarries(n, Token(id, Inserter));
      NobodyCarries(n, Token(id, Unlinked));
      NobodyCarries(n, Token(id, Duty));
    }
  }

  lemma {:induction false} RunOk(n: nat, run: seq<State>, steps: seq<Step>, i: nat)
    requires IsRun(n, run, steps) && i < |run|
    ensures StateOk(run[i])
  {
    if i == 0 {
      BeginOk(n);
    } else {
      RunOk(n, run, steps, i - 1);
      assert Linked(run[i - 1], steps[i - 1], run[i - 1 + 1]);
      StepOk(run[i - 1], steps[i - 1]);
    }
  }

  /** Lifetime in every reachable state: no touch of freed memory, and for every element,
      allocated exactly while the table or a reference names it (or one thread is about to
      free it); the low bits count table and references, the top bit is set exactly while
      the inserter has not marked the element ready. */
  lemma LockingLifetime(n: nat, run: seq<State>, steps: seq<Step>, i: nat, id: Id)
    requires IsRun(n, run, steps) && i < |run|
    ensures !run[i].fault
    ensures var st := run[i];
            var tab := if id in st.table then 1 else 0;
            var r, w, u, d := Count(st, id, Reader), Count(st, id, Inserter), Count(st, id, Unlinked),
                              Count(st, id, Duty);
            && (id in st.mem <==> tab + r + w + u + d > 0)
            && (id in st.mem ==>
                  st.mem[id].count == tab + r + u && (st.mem[id].notReady <==> w == 1) && w <= 1 && d <= 1)
  {
    RunOk(n, run, steps, i);
    assert IdOk(run[i], id);
  }

  /** Payload exclusion: while a reader has the value, or is being handed it, no inserter
      is still filling it in, although the element may have left the table long ago. */
  lemma PayloadExclusion(n: nat, run: seq<State>, steps: seq<Step>, i: nat, id: Id)
    requires IsRun(n, run, steps) && i < |run|
    ensures Count(run[i], id, Reader) == 0 || Count(run[i], id, Inserter) == 0
    ensures Token(id, Reader) in run[i].held ==> Token(id, Inserter) !in run[i].held
    ensures forall k :: k in run[i].held ==> k.id in run[i].mem
  {
    RunOk(n, run, steps, i);
    assert IdOk(run[i], id);
    forall k | k in run[i].held ensures k.id in run[i].mem {
      HeldIsLive(run[i], k);
    }
  }

  lemma HeldIsLive(st: State, k: Token)
    requires StateOk(st) && k in st.held
    ensures k.id in st.mem
  {
    assert IdOk(st, k.id);
    match k.kind
    case Reader => assert Count(st, k.id, Reader) > 0;
    case Inserter => assert Count(st, k.id, Inserter) > 0;
    case Unlinked => assert Count(st, k.id, Unlinked) > 0;
    case Duty => assert Count(st, k.id, Duty) > 0;
  }

  /** Once everything is given back, what is allocated is exactly what is in the table. */
  lemma NothingLeaks(n: nat, run: seq<State>, steps: seq<Step>, i: nat)
    requires IsRun(n, run, steps) && i < |run|
    requires run[i].held == multiset{} && run[i].threads == seq(n, _ => Idle)
    ensures forall id :: id in run[i].mem <==> id in run[i].table
  {
    RunOk(n, run, steps, i);
    forall id ensures id in run[i].mem <==> id in run[i].table {
      assert IdOk(run[i], id);
      NobodyCarries(n, Token(id, Reader));
      NobodyCarries(n, Token(id, Inserter));
      NobodyCarries(n, Token(id, Unlinked));
      NobodyCarries(n, Token(id, Duty));
    }
  }

  // The step that sees zero.

  /** After this step some thread more is bound to free the element. */
  ghost predicate SeesZero(st: State, next: State, id: Id) {
    Count(next, id, Duty) > Count(st, id, Duty)
  }

  lemma DutyInPc(st: State, step: Step, id: Id)
    requires StateOk(st) && Enabled(st, step)
    ensures var t, r := step.thread, Apply(st, step);
            && t < |r.threads|
            && (SeesZero(st, r, id) <==> Has(r.threads[t], Token(id, Duty)) > Has(st.threads[t], Token(id, Duty)))
  {
    var t, r := step.thread, Apply(st, step);
    FocusOk(st, t);
    OneThreadMoves(st, step);
    CarriedUpdate(st.threads, t, r.threads[t], Token(id, Duty));
    assert PcOk(st, t);
    assert r.held[Token(id, Duty)] == st.held[Token(id, Duty)];
  }

  /** That is an atomic release or mark of the element that leaves nothing of its count. */
  lemma SeesZeroIff(st: State, step: Step, id: Id)
    requires StateOk(st) && Enabled(st, step)
    ensures var pc, r := st.threads[step.thread], Apply(st, step);
            SeesZero(st, r, id)
            <==> (pc.Drop? || pc.Sub? || pc.And?) && pc.id == id && id in r.mem && r.mem[id].count == 0
                 && !r.mem[id].notReady
  {
    DutyInPc(st, step, id);
    FocusOk(st, step.thread);
    var pc := st.threads[step.thread];
    if pc.Drop? || pc.Sub? || pc.And? { AtomicEnds(st, step, id); } else { OtherEnds(st, step, id); }
  }

  lemma AtomicEnds(st: State, step: Step, id: Id)
    requires Enabled(st, step) && Focused(st, step.thread)
    requires var pc := st.threads[step.thread]; pc.Drop? || pc.Sub? || pc.And?
    ensures var pc, r := st.threads[step.thread], Apply(st, step);
            step.thread < |r.threads| && pc.id in r.mem
            && (Has(r.threads[step.thread], Token(id, Duty)) > 0
                <==> pc.id == id && r.mem[id].count == 0 && !r.mem[id].notReady)
            && Has(pc, Token(id, Duty)) == 0
  {
  }

  ghost predicate NoneEnds(st: State, step: Step, id: Id)
    requires step.thread < |st.threads|
  {
    && step.thread < |Apply(st, step).threads|
    && Has(Apply(st, step).threads[step.thread], Token(id, Duty)) <= Has(st.threads[step.thread], Token(id, Duty))
  }

  lemma OutsideEnds(st: State, step: Step, id: Id)
    requires step.thread < |st.threads| && Focused(st, step.thread)
    requires var pc := st.threads[step.thread]; pc.Idle? || pc.Want? || pc.Leave?
    ensures NoneEnds(st, step, id)
  {
    var pc := Apply(st, step).threads[step.thread];
    assert pc.Idle? || pc.Want? || pc.And? || pc.Sub? || pc.Find?;
  }

  lemma SearchEnds(st: State, step: Step, id: Id)
    requires step.thread < |st.threads| && Focused(st, step.thread)
    requires var pc := st.threads[step.thread]; pc.Find? || pc.Check? || pc.Inc?
    ensures NoneEnds(st, step, id)
  {
  }

  lemma RoomEnds(st: State, step: Step, id: Id)
    requires step.thread < |st.threads| && Focused(st, step.thread) && st.threads[step.thread].Room?
    ensures NoneEnds(st, step, id)
  {
  }

  lemma FreesEnd(st: State, step: Step, id: Id)
    requires step.thread < |st.threads| && Focused(st, step.thread)
    requires st.threads[step.thread].Free? || st.threads[step.thread].DropFree?
    ensures NoneEnds(st, step, id)
  {
  }

  lemma OtherEnds(st: State, step: Step, id: Id)
    requires step.thread < |st.threads| && Focused(st, step.thread)
    requires var pc := st.threads[step.thread]; !pc.Drop? && !pc.Sub? && !pc.And?
    ensures NoneEnds(st, step, id)
  {
    var pc := st.threads[step.thread];
    if pc.Idle? || pc.Want? || pc.Leave? {
      OutsideEnds(st, step, id);
    } else if pc.Find? || pc.Check? || pc.Inc? {
      SearchEnds(st, step, id);
    } else if pc.Room? {
      RoomEnds(st, step, id);
    } else {
      FreesEnd(st, step, id);
    }
  }

  /** The element's count has been seen to be zero, or it is freed already. */
  ghost predicate Ended(st: State, id: Id) {
    id < st.next && (id !in st.mem || Count(st, id, Duty) == 1)
  }

  lemma FreedGrows(st: State, step: Step)
    requires Enabled(st, step)
    ensures st.freed <= Apply(st, step).freed && st.next <= Apply(st, step).next
  {
  }

  lemma FreeEnds(st: State, step: Step, id: Id)
    requires Enabled(st, step) && Focused(st, step.thread) && Carry(st.threads[step.thread]) == Some(Token(id, Duty))
    requires st.threads[step.thread].Leave? ==> id !in st.mem
    ensures id !in Apply(st, step).mem
  {
  }

  lemma DutyKept(st: State, step: Step, id: Id)
    requires Enabled(st, step) && Focused(st, step.thread) && Carry(st.threads[step.thread]) != Some(Token(id, Duty))
    ensures Count(Apply(st, step), id, Duty) >= Count(st, id, Duty)
  {
    var t, r := step.thread, Apply(st, step);
    OneThreadMoves(st, step);
    DutiesAreNotHanded(st, step, id);
    CountMove(st, t, r.threads[t], r, Token(id, Duty));
  }

  lemma OneThreadMoves(st: State, step: Step)
    requires Enabled(st, step) && Focused(st, step.thread)
    ensures var r := Apply(st, step);
            |r.threads| == |st.threads| && r.threads == st.threads[step.thread := r.threads[step.thread]]
  {
  }

  lemma DutiesAreNotHanded(st: State, step: Step, id: Id)
    requires Enabled(st, step) && Focused(st, step.thread)
    ensures Apply(st, step).held[Token(id, Duty)] >= st.held[Token(id, Duty)]
  {
  }

  lemma EndedStays(st: State, step: Step, id: Id)
    requires StateOk(st) && Enabled(st, step) && Ended(st, id)
    ensures Ended(Apply(st, step), id)
  {
    var r := Apply(st, step);
    FreedGrows(st, step);
    StepOk(st, step);
    assert IdOk(r, id);
    if id !in st.mem {
      assert id in st.freed && id in r.freed;
    } else if Carry(st.threads[step.thread]) == Some(Token(id, Duty)) {
      FocusOk(st, step.thread);
      assert PcOk(st, step.thread);
      FreeEnds(st, step, id);
    } else {
      FocusOk(st, step.thread);
      DutyKept(st, step, id);
    }
  }

  lemma SeeingZeroEnds(st: State, step: Step, id: Id)
    requires StateOk(st) && Enabled(st, step) && SeesZero(st, Apply(st, step), id)
    ensures !Ended(st, id) && Ended(Apply(st, step), id)
  {
    var r := Apply(st, step);
    FreedGrows(st, step);
    StepOk(st, step);
    assert IdOk(st, id) && IdOk(r, id);
    assert id in st.freed ==> id in r.freed;
  }

  lemma EndedNext(n: nat, run: seq<State>, steps: seq<Step>, i: nat, id: Id)
    requires IsRun(n, run, steps) && i < |steps| && Ended(run[i], id)
    ensures Ended(run[i + 1], id)
  {
    RunOk(n, run, steps, i);
    assert Linked(run[i], steps[i], run[i + 1]);
    EndedStays(run[i], steps[i], id);
  }

  lemma {:induction false} EndedForGood(n: nat, run: seq<State>, steps: seq<Step>, i: nat, j: nat, id: Id)
    requires IsRun(n, run, steps) && i <= j < |run| && Ended(run[i], id)
    ensures Ended(run[j], id)
  {
    if i < j {
      EndedForGood(n, run, steps, i, j - 1, id);
      EndedNext(n, run, steps, j - 1, id);
    }
  }

  /** Of all the atomic steps of a run, whichever threads make them, at most one sees the
      count of an element at zero. */
  lemma OneStepSeesZero(n: nat, run: seq<State>, steps: seq<Step>, i: nat, j: nat, id: Id)
    requires IsRun(n, run, steps) && i < |steps| && j < |steps|
    requires SeesZero(run[i], run[i + 1], id) && SeesZero(run[j], run[j + 1], id)
    ensures i == j
  {
    if i < j {
      SeenOnce(n, run, steps, i, j, id);
    } else if j < i {
      SeenOnce(n, run, steps, j, i, id);
    }
  }

  lemma SeenOnce(n: nat, run: seq<State>, steps: seq<Step>, i: nat, j: nat, id: Id)
    requires IsRun(n, run, steps) && i < j < |steps|
    requires SeesZero(run[i], run[i + 1], id)
    ensures !SeesZero(run[j], run[j + 1], id)
  {
    RunOk(n, run, steps, i);
    RunOk(n, run, steps, j);
    assert Linked(run[i], steps[i], run[i + 1]) && Linked(run[j], steps[j], run[j + 1]);
    SeeingZeroEnds(run[i], steps[i], id);
    EndedForGood(n, run, steps, i + 1, j, id);
    if SeesZero(run[j], run[j + 1], id) { SeeingZeroEnds(run[j], steps[j], id); }
  }

  /** An element leaves memory only by the step of a thread bound to free it, and a new one
      is in memory. */
  lemma OnlyDutyFrees(st: State, step: Step, id: Id)
    requires Enabled(st, step) && Focused(st, step.thread) && id !in Apply(st, step).mem
    ensures id in st.mem ==> Carry(st.threads[step.thread]) == Some(Token(id, Duty))
    ensures id < st.next <==> id < Apply(st, step).next
  {
  }

  lemma EndingSeesZero(st: State, step: Step, id: Id)
    requires StateOk(st) && Enabled(st, step) && !Ended(st, id) && Ended(Apply(st, step), id)
    ensures SeesZero(st, Apply(st, step), id)
  {
    var r := Apply(st, step);
    FocusOk(st, step.thread);
    assert IdOk(st, id);
    if id !in r.mem {
      OnlyDutyFrees(st, step, id);
      CarriedAtLeast(st.threads, step.thread, Token(id, Duty));
    }
  }

  lemma {:induction false} ZeroWasSeen(n: nat, run: seq<State>, steps: seq<Step>, i: nat, id: Id) returns (k: nat)
    requires IsRun(n, run, steps) && i < |run| && Ended(run[i], id)
    ensures k < i && SeesZero(run[k], run[k + 1], id)
  {
    assert i > 0;
    var j := i - 1;
    RunOk(n, run, steps, j);
    assert Linked(run[j], steps[j], run[j + 1]);
    if Ended(run[j], id) {
      k := ZeroWasSeen(n, run, steps, j, id);
    } else {
      k := j;
      EndingSeesZero(run[j], steps[j], id);
    }
  }

  /** For every element freed in a run exactly one of the run's atomic steps saw its count
      at zero, and it came before. */
  lemma FreedAfterOneZero(n: nat, run: seq<State>, steps: seq<Step>, i: nat, id: Id) returns (k: nat)
    requires IsRun(n, run, steps) && i < |run| && id in run[i].freed
    ensures k < i && SeesZero(run[k], run[k + 1], id)
    ensures forall j :: 0 <= j < |steps| && SeesZero(run[j], run[j + 1], id) ==> j == k
  {
    RunOk(n, run, steps, i);
    k := ZeroWasSeen(n, run, steps, i, id);
    forall j | 0 <= j < |steps| && SeesZero(run[j], run[j + 1], id) ensures j == k {
      OneStepSeesZero(n, run, steps, j, k, id);
    }
  }

  /** Nothing is freed twice: the frees of a run are all of different elements, and they
      are exactly the elements allocated so far that are not live. */
  lemma FreedOnce(n: nat, run: seq<State>, steps: seq<Step>, i: nat)
    requires IsRun(n, run, steps) && i < |run|
    ensures forall j, k :: 0 <= j < k < |run[i].freed| ==> run[i].freed[j] != run[i].freed[k]
    ensures forall id: Id :: id in run[i].freed <==> id < run[i].next && id !in run[i].mem
  {
    RunOk(n, run, steps, i);
  }
}
