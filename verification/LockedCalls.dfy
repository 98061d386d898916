/** The locking design as its callers see it: every thread's calls take effect as they were
    made, in its own order, and each returns the answer it has in the sequential run. */
module LockedCalls {
  import opened Basics
  import opened Routes
  import T = LockedTable
  import L = AndersonLock
  import opened LockedSerial
  import D = LockedDesign
  import E = Elements
  import Flow
  import System

  /** The request a thread starts in a step. */
  function CallOf(step: T.Step, size: nat, t: nat): seq<E.Op> {
    if step.thread != t then []
    else
      match step.choice
      case Start(Lookup(key)) => [E.Lookup(key)]
      case Start(Insert(key)) => [E.Insert(key, size)]
      case GiveBack(Token(id, kind)) => [E.Release(E.Ref(id, if kind == T.Inserter then E.Inserter else E.Reader))]
      case _ => []
  }

  /** All requests thread t has made, in order. */
  function Called(steps: seq<(T.Step, nat)>, t: nat): seq<E.Op> {
    if steps == [] then []
    else
      var last := steps[|steps| - 1];
      Called(steps[..|steps| - 1], t) + CallOf(last.0, last.1, t)
  }

  /** The request of a call that has not taken effect yet. */
  function InProgress(mem: map<T.Id, T.Cell>, pc: T.Pc, size: nat): seq<E.Op> {
    match pc
    case Want(call) => [OpOf(call, size)]
    case Find(call) => [OpOf(call, size)]
    case Check(id) => if id in mem then [E.Lookup(mem[id].key)] else []
    case Inc(id) => if id in mem then [E.Lookup(mem[id].key)] else []
    case Drop(_, key) => [E.Insert(key, size)]
    case DropFree(_, key) => [E.Insert(key, size)]
    case Room(key) => [E.Insert(key, size)]
    case Sub(id) => [E.Release(E.Ref(id, E.Reader))]
    case And(id) => [E.Release(E.Ref(id, E.Inserter))]
    case _ => []
  }

  ghost predicate Shape(tr: Traced, t: nat) {
    T.StateOk(tr.st) && t < |tr.st.threads| == |tr.sizes|
  }

  function Sofar(tr: Traced, t: nat): seq<E.Op>
    requires t < |tr.st.threads| == |tr.sizes|
  {
    Flow.OpsOf(Route(tr.log, t)) + InProgress(tr.st.mem, tr.st.threads[t], tr.sizes[t])
  }

  /** What a thread returns. */
  function AnswerOf(got: Option<T.Token>): E.Answer {
    match got
    case None => E.Null
    case Some(Token(id, kind)) => E.Ref(id, if kind == T.Inserter then E.Inserter else E.Reader)
  }

  /** The value a call is about to return is the answer logged for it. */
  ghost predicate ReturnsLogged(tr: Traced, t: nat)
    requires t < |tr.st.threads|
  {
    tr.st.threads[t].Leave? ==>
      var mine := Route(tr.log, t);
      mine != [] && mine[|mine| - 1].answer == Some(AnswerOf(tr.st.threads[t].got))
  }

  lemma LogMine(tr: Traced, step: T.Step, size: nat, t: nat)
    requires step.thread < |tr.st.threads| == |tr.sizes|
    ensures var event := EventOf(tr, step);
            Route(Next(tr, step, size).log, t)
            == Route(tr.log, t) + (if event.Some? && step.thread == t then [event.value] else [])
  {
    var event := EventOf(tr, step);
    if event.Some? { RouteSnoc(tr.log, (step.thread, event.value), t); }
  }

  function EventOps(event: Option<System.Event>): seq<E.Op> {
    if event.Some? then [event.value.op] else []
  }

  /** The thread that steps. */
  ghost predicate OwnStep(tr: Traced, step: T.Step, size: nat)
    requires step.thread < |tr.st.threads| == |tr.sizes|
  {
    var t, r := step.thread, Next(tr, step, size);
    && t < |r.st.threads| == |r.sizes|
    && EventOps(EventOf(tr, step)) + InProgress(r.st.mem, r.st.threads[t], r.sizes[t])
       == InProgress(tr.st.mem, tr.st.threads[t], tr.sizes[t]) + CallOf(step, size, t)
    && (ReturnsLogged(tr, t) ==> ReturnsLogged(r, t))
  }

  lemma OutsideMoves(tr: Traced, step: T.Step, size: nat)
    requires Shape(tr, step.thread) && T.Enabled(tr.st, step)
    requires !T.NeedsLock(tr.st.threads[step.thread])
    ensures OwnStep(tr, step, size)
  {
    T.FocusOk(tr.st, step.thread);
  }

  lemma FoundMoves(tr: Traced, step: T.Step, size: nat)
    requires step.thread < |tr.st.threads| == |tr.sizes| && tr.st.threads[step.thread].Find? && step.choice.Found?
    requires T.IsEntry(tr.st, step.choice.id, tr.st.threads[step.thread].call.key)
    ensures OwnStep(tr, step, size)
  {
    var t, r := step.thread, Next(tr, step, size);
    if tr.st.threads[t].call.Lookup? { assert r.st.threads[t].Check?; } else { assert r.st.threads[t].Drop?; }
  }

  lemma AbsentMoves(tr: Traced, step: T.Step, size: nat)
    requires step.thread < |tr.st.threads| == |tr.sizes| && tr.st.threads[step.thread].Find? && step.choice.Absent?
    ensures OwnStep(tr, step, size)
  {
    var t, r := step.thread, Next(tr, step, size);
    if tr.st.threads[t].call.Lookup? {
      LogMine(tr, step, size, t);
      assert r.st.threads[t] == T.Leave(None);
    } else {
      assert r.st.threads[t].Room?;
    }
  }

  lemma CheckMoves(tr: Traced, step: T.Step, size: nat)
    requires Shape(tr, step.thread) && T.Enabled(tr.st, step)
    requires tr.st.threads[step.thread].Check? || tr.st.threads[step.thread].Inc?
    ensures OwnStep(tr, step, size)
  {
    assert T.PcOk(tr.st, step.thread);
    KeysKept(tr.st, step, tr.st.threads[step.thread].id);
    LogMine(tr, step, size, step.thread);
  }

  lemma DropMoves(tr: Traced, step: T.Step, size: nat)
    requires Shape(tr, step.thread) && T.Enabled(tr.st, step)
    requires var pc := tr.st.threads[step.thread]; pc.Drop? || pc.DropFree? || pc.Leave?
    ensures OwnStep(tr, step, size)
  {
    T.FocusOk(tr.st, step.thread);
  }

  lemma RoomMoves(tr: Traced, step: T.Step, size: nat)
    requires step.thread < |tr.st.threads| == |tr.sizes| && tr.st.threads[step.thread].Room?
    requires step.choice.Victim? || step.choice.Enough?
    ensures OwnStep(tr, step, size)
  {
    LogMine(tr, step, size, step.thread);
  }

  lemma OwnMoves(tr: Traced, step: T.Step, size: nat)
    requires Shape(tr, step.thread) && T.Enabled(tr.st, step)
    ensures OwnStep(tr, step, size)
  {
    var pc := tr.st.threads[step.thread];
    if pc.Find? {
      if step.choice.Found? { FoundMoves(tr, step, size); } else { AbsentMoves(tr, step, size); }
    } else if pc.Check? || pc.Inc? {
      CheckMoves(tr, step, size);
    } else if pc.Room? {
      RoomMoves(tr, step, size);
    } else if T.NeedsLock(pc) {
      DropMoves(tr, step, size);
    } else {
      OutsideMoves(tr, step, size);
    }
  }

  lemma OthersMove(tr: Traced, step: T.Step, size: nat, u: nat)
    requires Shape(tr, u) && T.Enabled(tr.st, step) && u != step.thread
    ensures var r := Next(tr, step, size);
            && u < |r.st.threads| == |r.sizes| && r.st.threads[u] == tr.st.threads[u]
            && InProgress(r.st.mem, r.st.threads[u], r.sizes[u])
               == InProgress(tr.st.mem, tr.st.threads[u], tr.sizes[u])
  {
    T.FocusOk(tr.st, step.thread);
    T.OneThreadMoves(tr.st, step);
    assert T.PcOk(tr.st, u);
    var pc := tr.st.threads[u];
    if pc.Check? || pc.Inc? { KeysKept(tr.st, step, pc.id); }
  }

  lemma Regroup<A>(a: seq<A>, b: seq<A>, c: seq<A>, d: seq<A>, e: seq<A>)
    requires b + c == d + e
    ensures (a + b) + c == (a + d) + e
  {
    assert (a + b) + c == a + (b + c) && (a + d) + e == a + (d + e);
  }

  lemma OwnCalls(tr: Traced, step: T.Step, size: nat)
    requires Shape(tr, step.thread) && T.Enabled(tr.st, step) && OwnStep(tr, step, size)
    ensures var t, r := step.thread, Next(tr, step, size);
            t < |r.st.threads| == |r.sizes| && Sofar(r, t) == Sofar(tr, t) + CallOf(step, size, t)
  {
    var t, r := step.thread, Next(tr, step, size);
    var event, mine := EventOf(tr, step), Route(tr.log, t);
    LogMine(tr, step, size, t);
    if event.Some? { Flow.OpsSnoc(mine, event.value); } else { assert mine + [] == mine; }
    assert Flow.OpsOf(mine) + EventOps(event) == Flow.OpsOf(Route(r.log, t));
    Regroup(Flow.OpsOf(mine), EventOps(event), InProgress(r.st.mem, r.st.threads[t], r.sizes[t]),
            InProgress(tr.st.mem, tr.st.threads[t], tr.sizes[t]), CallOf(step, size, t));
  }

  lemma StepCalls(tr: Traced, step: T.Step, size: nat, t: nat)
    requires Shape(tr, t) && T.Enabled(tr.st, step) && ReturnsLogged(tr, t)
    ensures var r := Next(tr, step, size);
            && t < |r.st.threads| == |r.sizes| && ReturnsLogged(r, t)
            && Sofar(r, t) == Sofar(tr, t) + CallOf(step, size, t)
  {
    if t == step.thread {
      OwnMoves(tr, step, size);
      OwnCalls(tr, step, size);
    } else {
      LogMine(tr, step, size, t);
      OthersMove(tr, step, size, t);
      assert Route(tr.log, t) + [] == Route(tr.log, t) && Sofar(tr, t) + [] == Sofar(tr, t);
    }
  }

  lemma BeginCalls(n: nat, t: nat)
    requires t < n
    ensures var tr := Begin(n); t < |tr.st.threads| == |tr.sizes| && Sofar(tr, t) == [] && ReturnsLogged(tr, t)
  {
    assert Flow.OpsOf([]) == [] && Route<System.Event>([], t) == [];
  }

  /** Whatever a thread has called for has taken effect, in the order of its calls, but for
      the call in progress; and the value a call is about to return is the answer it has in
      the log, which is a sequential run of the partition. */
  lemma {:induction false} CallsTakeEffect(maxSize: nat, n: nat, run: seq<Traced>, steps: seq<(T.Step, nat)>, i: nat,
                                           t: nat)
    requires IsRun(maxSize, n, run, steps) && i < |run| && t < n
    ensures t < |run[i].st.threads| == |run[i].sizes|
    ensures Sofar(run[i], t) == Called(steps[..i], t) && ReturnsLogged(run[i], t)
  {
    if i == 0 {
      BeginCalls(n, t);
    } else {
      CallsTakeEffect(maxSize, n, run, steps, i - 1, t);
      var p, U := RunGood(maxSize, n, run, steps, i - 1);
      assert Linked(maxSize, run[i - 1], steps[i - 1], run[i - 1 + 1]);
      StepCalls(run[i - 1], steps[i - 1].0, steps[i - 1].1, t);
      assert steps[..i][..i - 1] == steps[..i - 1];
    }
  }

  // Under Anderson's lock.

  function CallsMade(moves: seq<D.Move>): seq<(T.Step, nat)> {
    seq(|moves|, k requires 0 <= k < |moves| => (moves[k].step, moves[k].size))
  }

  lemma MoveCalls(maxSize: nat, lru: bool, n: nat, m: nat, schedule: seq<nat>, b: D.Both, move: D.Move, t: nat)
    requires D.Inv(n, m, schedule, b) && D.CanMove(maxSize, lru, b, move) && t < m
    requires ReturnsLogged(b.tr, t)
    ensures var r := D.After(b, move);
            && t < |r.tr.st.threads| == |r.tr.sizes| && ReturnsLogged(r.tr, t)
            && Sofar(r.tr, t) == Sofar(b.tr, t) + CallOf(move.step, move.size, t)
  {
    var u := move.step.thread;
    if !b.tr.st.threads[u].Want? {
      StepCalls(b.tr, move.step, move.size, t);
    } else if L.Step(b.lock, u).threads[u].Held? {
      D.Granted(n, m, schedule, b, u);
      StepCalls(b.tr, move.step, move.size, t);
    } else {
      assert Sofar(b.tr, t) + [] == Sofar(b.tr, t);
    }
  }

  lemma NextCalls(maxSize: nat, lru: bool, n: nat, m: nat, run: seq<D.Both>, moves: seq<D.Move>, i: nat, t: nat)
    requires D.IsRun(maxSize, lru, n, m, run, moves) && m <= n && i < |moves| && t < m
    requires t < |run[i].tr.st.threads| && ReturnsLogged(run[i].tr, t)
    ensures t < |run[i].tr.st.threads| == |run[i].tr.sizes| && t < |run[i + 1].tr.st.threads| == |run[i + 1].tr.sizes|
    ensures ReturnsLogged(run[i + 1].tr, t)
    ensures Sofar(run[i + 1].tr, t) == Sofar(run[i].tr, t) + CallOf(moves[i].step, moves[i].size, t)
  {
    var schedule, trs, steps := D.Refines(maxSize, lru, n, m, run, moves, i);
    assert D.Linked(maxSize, lru, m, run[i], moves[i], run[i + 1]);
    MoveCalls(maxSize, lru, n, m, schedule, run[i], moves[i], t);
  }

  /** The same with the lock itself in place of the holder. */
  lemma {:induction false} LockedCallsTakeEffect(maxSize: nat, lru: bool, n: nat, m: nat, run: seq<D.Both>,
                                                 moves: seq<D.Move>, i: nat, t: nat)
    requires D.IsRun(maxSize, lru, n, m, run, moves) && m <= n && i < |run| && t < m
    ensures t < |run[i].tr.st.threads| == |run[i].tr.sizes|
    ensures Sofar(run[i].tr, t) == Called(CallsMade(moves[..i]), t) && ReturnsLogged(run[i].tr, t)
  {
    if i == 0 {
      BeginCalls(m, t);
    } else {
      LockedCallsTakeEffect(maxSize, lru, n, m, run, moves, i - 1, t);
      NextCalls(maxSize, lru, n, m, run, moves, i - 1, t);
      assert CallsMade(moves[..i])[..i - 1] == CallsMade(moves[..i - 1]);
    }
  }

  // Calls end.

  /** Steps a call has left under the lock, at most. */
  function CallRest(st: T.State, pc: T.Pc): nat {
    match pc
    case Find(_) => 4 * |st.table| + 4
    case Drop(_, _) => 4 * |st.table| + 3
    case DropFree(_, _) => 4 * |st.table| + 2
    case Room(_) => 4 * |st.table| + 1
    case Check(_) => 2
    case Inc(_) => 1
    case _ => 0
  }

  lemma OneLess(table: set<T.Id>, id: T.Id)
    requires id in table
    ensures |table - {id}| == |table| - 1
  {
  }

  /** Every step of the thread that holds the lock brings the end of its call nearer. */
  lemma HolderLowers(st: T.State, step: T.Step)
    requires T.StateOk(st) && T.Enabled(st, step)
    requires T.NeedsLock(st.threads[step.thread]) && !st.threads[step.thread].Leave?
    ensures var t, r := step.thread, T.Apply(st, step);
            && t < |r.threads| && T.NeedsLock(r.threads[t])
            && CallRest(r, r.threads[t]) < CallRest(st, st.threads[t])
  {
    T.FocusOk(st, step.thread);
    assert T.PcOk(st, step.thread);
    if step.choice.Found? && st.threads[step.thread].Find? { OneLess(st.table, step.choice.id); }
    if step.choice.Victim? { OneLess(st.table, step.choice.id); }
  }

  /** Nobody else touches the table meanwhile. */
  lemma OthersKeepTable(st: T.State, step: T.Step, t: nat)
    requires T.StateOk(st) && T.Enabled(st, step) && t < |st.threads| && t != step.thread && T.NeedsLock(st.threads[t])
    ensures T.Apply(st, step).table == st.table
  {
    T.FocusOk(st, step.thread);
    assert T.PcOk(st, t) && T.PcOk(st, step.thread);
  }

  /** A move that changes nothing is a thread spinning on its slot, while the oldest ticket
      is another's, whose next move changes something. */
  lemma SomeoneMoves(maxSize: nat, lru: bool, n: nat, m: nat, run: seq<D.Both>, moves: seq<D.Move>, i: nat,
                     move: D.Move)
    requires D.IsRun(maxSize, lru, n, m, run, moves) && m <= n && i < |run|
    requires D.Shape(run[i], m) && D.CanMove(maxSize, lru, run[i], move) && D.After(run[i], move) == run[i]
    ensures var b, q := run[i], L.Queue(run[i].lock);
            && b.lock.threads[move.step.thread].Spin? && b.tr.st.threads[move.step.thread].Want?
            && q != [] && q[0] < m && q[0] != move.step.thread
            && (b.tr.st.threads[q[0]].Want? ==> D.After(b, D.Move(T.Step(q[0], T.Go), 0)) != b)
  {
    var b := run[i];
    var schedule, trs, steps := D.Refines(maxSize, lru, n, m, run, moves, i);
    L.OldestTicketMoves(n, m, schedule);
    L.RunOk(n, m, schedule);
    if b.tr.st.threads[move.step.thread].Want? {
      SpinsBehind(n, m, schedule, b, move);
    } else {
      MovesOn(maxSize, lru, n, m, schedule, b, move);
    }
  }

  lemma SpinsBehind(n: nat, m: nat, schedule: seq<nat>, b: D.Both, move: D.Move)
    requires D.Inv(n, m, schedule, b) && move.step.thread < m && b.tr.st.threads[move.step.thread].Want?
    requires D.After(b, move) == b && L.Inv(b.lock)
    ensures b.lock.threads[move.step.thread].Spin? && L.Queue(b.lock) != [] && L.Queue(b.lock)[0] != move.step.thread
  {
    var t := move.step.thread;
    assert D.PcMatch(b.lock.threads[t], b.tr.st.threads[t]);
    L.OldestTicketMoves(n, m, schedule);
    assert L.Step(b.lock, t) == b.lock;
  }

  lemma MovesOn(maxSize: nat, lru: bool, n: nat, m: nat, schedule: seq<nat>, b: D.Both, move: D.Move)
    requires D.Inv(n, m, schedule, b) && D.CanMove(maxSize, lru, b, move) && !b.tr.st.threads[move.step.thread].Want?
    ensures D.After(b, move) != b
  {
    var t := move.step.thread;
    T.FocusOk(b.tr.st, t);
    assert T.PcOk(b.tr.st, t);
  }
}
