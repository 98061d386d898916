/** The locking design as it is: the threads of LockedTable, with Anderson's lock in the
    place of its holder.  With at most nthread threads every run is a run of LockedTable,
    so what is proved there needs no assumption about the lock. */
module LockedDesign {
  import opened Basics
  import T = LockedTable
  import L = AndersonLock
  import opened LockedSerial
  import E = Elements
  import Lifetime
  import Safety

  datatype Both = Both(lock: L.State, tr: Traced)

  /** One step of a thread, and the size if it starts an insert. */
  datatype Move = Move(step: T.Step, size: nat)

  function Start(n: nat, m: nat): Both
    requires n > 0
  {
    Both(L.Init(n, m), Begin(m))
  }

  ghost predicate Shape(b: Both, m: nat) {
    && |b.lock.hasLock| > 0 && b.lock.nextSlot >= 0
    && |b.lock.threads| == |b.tr.st.threads| == |b.tr.sizes| == m
  }

  /** A thread that wants the lock takes a step of anderson_acquire; the others, a step of
      their call.  With `lru` the partition evicts by LRU and inserts fit. */
  ghost predicate CanMove(maxSize: nat, lru: bool, b: Both, move: Move) {
    && move.step.thread < |b.tr.st.threads| == |b.tr.sizes|
    && if b.tr.st.threads[move.step.thread].Want? then move.step.choice.Go?
       else T.Enabled(b.tr.st, move.step) && (lru ==> CanStep(maxSize, b.tr, move.step, move.size))
  }

  function After(b: Both, move: Move): Both
    requires |b.lock.hasLock| > 0 && b.lock.nextSlot >= 0
    requires move.step.thread < |b.lock.threads| == |b.tr.st.threads| == |b.tr.sizes|
  {
    var t := move.step.thread;
    var tr := Next(b.tr, move.step, move.size);
    if b.tr.st.threads[t].Want? then
      var lock := L.Step(b.lock, t);
      Both(lock, if t < |lock.threads| && lock.threads[t].Held? then tr else b.tr)
    else if b.tr.st.threads[t].Leave? then Both(L.Step(b.lock, t), tr)
    else Both(b.lock, tr)
  }

  ghost predicate PcMatch(lock: L.Pc, pc: T.Pc) {
    if T.NeedsLock(pc) then lock.Held? else if pc.Want? then !lock.Held? else lock.Idle?
  }

  /** The calls have got the table in the order in which their threads got the lock. */
  ghost predicate SameOrder(b: Both) {
    |b.tr.grants| == |b.lock.grants| && forall i :: 0 <= i < |b.tr.grants| ==> b.tr.grants[i].0 == b.lock.grants[i]
  }

  ghost predicate Inv(n: nat, m: nat, schedule: seq<nat>, b: Both) {
    && 0 < n && m <= n && b.lock == L.After(n, m, schedule) && Shape(b, m)
    && T.StateOk(b.tr.st) && SameOrder(b)
    && (b.tr.st.holder.Some? ==> b.tr.st.holder.value < m)
    && forall t: nat :: t < m ==> PcMatch(b.lock.threads[t], b.tr.st.threads[t])
  }

  lemma LockStep(n: nat, m: nat, schedule: seq<nat>, t: nat)
    requires n > 0 && t < m
    ensures var l, r := L.After(n, m, schedule), L.After(n, m, schedule + [t]);
            r == L.Step(l, t) && forall u :: 0 <= u < m && u != t ==> r.threads[u] == l.threads[u]
  {
    assert (schedule + [t])[..|schedule + [t]| - 1] == schedule;
  }

  lemma HolderHolds(n: nat, m: nat, schedule: seq<nat>, b: Both)
    requires Inv(n, m, schedule, b)
    ensures b.tr.st.holder.Some? ==>
              var u := b.tr.st.holder.value;
              u < m && b.lock.threads[u].Held? && !b.tr.st.threads[u].Want?
  {
    if b.tr.st.holder.Some? {
      var u := b.tr.st.holder.value;
      assert T.PcOk(b.tr.st, u) && PcMatch(b.lock.threads[u], b.tr.st.threads[u]);
    }
  }

  /** When the lock lets a thread in, nobody holds the table. */
  lemma Granted(n: nat, m: nat, schedule: seq<nat>, b: Both, t: nat)
    requires Inv(n, m, schedule, b) && t < m && b.tr.st.threads[t].Want? && L.Step(b.lock, t).threads[t].Held?
    ensures b.tr.st.holder == None
  {
    HolderHolds(n, m, schedule, b);
    LockStep(n, m, schedule, t);
    L.FairMutualExclusion(n, m, schedule + [t]);
  }

  /** Between taking and giving back the lock a thread keeps it. */
  lemma KeepsLock(st: T.State, step: T.Step)
    requires T.Enabled(st, step) && T.Focused(st, step.thread) && T.PcOk(st, step.thread)
    requires var pc := st.threads[step.thread]; !pc.Want? && !pc.Leave?
    ensures var r := T.Apply(st, step);
            && |r.threads| == |st.threads| && r.holder == st.holder
            && (T.NeedsLock(r.threads[step.thread]) <==> T.NeedsLock(st.threads[step.thread]))
            && (r.threads[step.thread].Want? ==> st.threads[step.thread].Idle?)
  {
    KeepsHolder(st, step);
    T.OwnPcOk(st, step);
    T.OneThreadMoves(st, step);
  }

  lemma KeepsHolder(st: T.State, step: T.Step)
    requires T.Enabled(st, step) && T.Focused(st, step.thread)
    requires var pc := st.threads[step.thread]; !pc.Want? && !pc.Leave?
    ensures T.Apply(st, step).holder == st.holder
    ensures T.Apply(st, step).threads[step.thread].Want? ==> st.threads[step.thread].Idle?
  {
  }

  /** What the lock does to the thread that steps, and to no other. */
  lemma LockMoves(lock: L.State, t: nat)
    requires |lock.hasLock| > 0 && lock.nextSlot >= 0 && t < |lock.threads|
    ensures var r := L.Step(lock, t);
            && |r.threads| == |lock.threads| && |r.hasLock| == |lock.hasLock|
            && (forall u :: 0 <= u < |r.threads| && u != t ==> r.threads[u] == lock.threads[u])
            && (lock.threads[t].Held? ==> r.threads[t].Idle?)
            && r.grants == lock.grants + (if r.threads[t].Held? && !lock.threads[t].Held? then [t] else [])
  {
  }

  lemma WaitMove(maxSize: nat, lru: bool, n: nat, m: nat, schedule: seq<nat>, b: Both, move: Move)
    requires Inv(n, m, schedule, b) && CanMove(maxSize, lru, b, move) && b.tr.st.threads[move.step.thread].Want?
    ensures var t, r := move.step.thread, After(b, move);
            && r.lock == L.After(n, m, schedule + [t])
            && (r.tr == b.tr || (T.Enabled(b.tr.st, move.step) && r.tr == Next(b.tr, move.step, move.size)))
            && (lru && r.tr != b.tr ==> CanStep(maxSize, b.tr, move.step, move.size))
    ensures Inv(n, m, schedule + [move.step.thread], After(b, move))
  {
    var t, r := move.step.thread, After(b, move);
    LockStep(n, m, schedule, t);
    LockMoves(b.lock, t);
    assert PcMatch(b.lock.threads[t], b.tr.st.threads[t]);
    if r.lock.threads[t].Held? {
      Granted(n, m, schedule, b, t);
      T.StepOk(b.tr.st, move.step);
      assert r.tr.st.threads == b.tr.st.threads[t := T.Find(b.tr.st.threads[t].call)];
    }
    forall u: nat | u < m ensures PcMatch(r.lock.threads[u], r.tr.st.threads[u]) {
      assert PcMatch(b.lock.threads[u], b.tr.st.threads[u]);
    }
  }

  lemma LeaveMove(maxSize: nat, lru: bool, n: nat, m: nat, schedule: seq<nat>, b: Both, move: Move)
    requires Inv(n, m, schedule, b) && CanMove(maxSize, lru, b, move) && b.tr.st.threads[move.step.thread].Leave?
    ensures After(b, move).tr == Next(b.tr, move.step, move.size)
    ensures Inv(n, m, schedule + [move.step.thread], After(b, move))
  {
    var t, r := move.step.thread, After(b, move);
    LockStep(n, m, schedule, t);
    LockMoves(b.lock, t);
    assert PcMatch(b.lock.threads[t], b.tr.st.threads[t]);
    T.StepOk(b.tr.st, move.step);
    assert r.tr.st.threads == b.tr.st.threads[t := T.Idle];
    forall u: nat | u < m ensures PcMatch(r.lock.threads[u], r.tr.st.threads[u]) {
      assert PcMatch(b.lock.threads[u], b.tr.st.threads[u]);
    }
  }

  lemma CallMove(maxSize: nat, lru: bool, n: nat, m: nat, schedule: seq<nat>, b: Both, move: Move)
    requires Inv(n, m, schedule, b) && CanMove(maxSize, lru, b, move)
    requires var pc := b.tr.st.threads[move.step.thread]; !pc.Want? && !pc.Leave?
    ensures After(b, move).tr == Next(b.tr, move.step, move.size)
    ensures Inv(n, m, schedule, After(b, move))
  {
    var t, r := move.step.thread, After(b, move);
    T.StepOk(b.tr.st, move.step);
    T.FocusOk(b.tr.st, t);
    assert T.PcOk(b.tr.st, t) && PcMatch(b.lock.threads[t], b.tr.st.threads[t]);
    KeepsLock(b.tr.st, move.step);
    T.OneThreadMoves(b.tr.st, move.step);
    forall u: nat | u < m ensures PcMatch(r.lock.threads[u], r.tr.st.threads[u]) {
      assert PcMatch(b.lock.threads[u], b.tr.st.threads[u]);
    }
  }

  // Runs.

  ghost predicate Linked(maxSize: nat, lru: bool, m: nat, b: Both, move: Move, next: Both) {
    Shape(b, m) && CanMove(maxSize, lru, b, move) && next == After(b, move)
  }

  ghost predicate IsRun(maxSize: nat, lru: bool, n: nat, m: nat, run: seq<Both>, moves: seq<Move>) {
    && 0 < n && |run| == |moves| + 1 && run[0] == Start(n, m)
    && forall i :: 0 <= i < |moves| ==> Linked(maxSize, lru, m, run[i], moves[i], run[i + 1])
  }

  function States(trs: seq<Traced>): seq<T.State> {
    seq(|trs|, i requires 0 <= i < |trs| => trs[i].st)
  }

  function Steps(steps: seq<(T.Step, nat)>): seq<T.Step> {
    seq(|steps|, i requires 0 <= i < |steps| => steps[i].0)
  }

  /** Runs of LockedTable, and of LockedSerial if victims follow the LRU list. */
  ghost predicate TableRun(maxSize: nat, lru: bool, m: nat, trs: seq<Traced>, steps: seq<(T.Step, nat)>) {
    && |trs| == |steps| + 1 && trs[0] == Begin(m)
    && T.IsRun(m, States(trs), Steps(steps))
    && (lru ==> LockedSerial.IsRun(maxSize, m, trs, steps))
  }

  lemma OneMore(maxSize: nat, lru: bool, m: nat, trs: seq<Traced>, steps: seq<(T.Step, nat)>, step: T.Step, size: nat)
    requires TableRun(maxSize, lru, m, trs, steps)
    requires var tr := trs[|steps|];
             |tr.sizes| == |tr.st.threads| && T.Enabled(tr.st, step) && (lru ==> CanStep(maxSize, tr, step, size))
    ensures TableRun(maxSize, lru, m, trs + [Next(trs[|steps|], step, size)], steps + [(step, size)])
  {
    var tr := trs[|steps|];
    var trs', steps' := trs + [Next(tr, step, size)], steps + [(step, size)];
    assert States(trs') == States(trs) + [T.Apply(tr.st, step)] && Steps(steps') == Steps(steps) + [step];
    forall i | 0 <= i < |steps'| ensures T.Linked(States(trs')[i], Steps(steps')[i], States(trs')[i + 1]) {
      if i < |steps| { assert T.Linked(States(trs)[i], Steps(steps)[i], States(trs)[i + 1]); }
    }
    if lru {
      forall i | 0 <= i < |steps'| ensures LockedSerial.Linked(maxSize, trs'[i], steps'[i], trs'[i + 1]) {
        if i < |steps| { assert LockedSerial.Linked(maxSize, trs[i], steps[i], trs[i + 1]); }
      }
    }
  }

  lemma StartOk(maxSize: nat, lru: bool, n: nat, m: nat)
    requires 0 < n && m <= n
    ensures Inv(n, m, [], Start(n, m)) && TableRun(maxSize, lru, m, [Begin(m)], [])
  {
    T.BeginOk(m);
    assert States([Begin(m)])[0] == T.Begin(m);
  }

  /** With at most nthread threads the table of the locking design goes through a run of
      LockedTable, and under LRU of LockedSerial: the lock is the holder assumed there. */
  lemma {:induction false} Refines(maxSize: nat, lru: bool, n: nat, m: nat, run: seq<Both>, moves: seq<Move>, i: nat)
    returns (schedule: seq<nat>, trs: seq<Traced>, steps: seq<(T.Step, nat)>)
    requires IsRun(maxSize, lru, n, m, run, moves) && m <= n && i < |run|
    ensures Inv(n, m, schedule, run[i])
    ensures TableRun(maxSize, lru, m, trs, steps) && trs[|steps|] == run[i].tr
  {
    if i == 0 {
      StartOk(maxSize, lru, n, m);
      schedule, trs, steps := [], [Begin(m)], [];
    } else {
      schedule, trs, steps := Refines(maxSize, lru, n, m, run, moves, i - 1);
      var b, move := run[i - 1], moves[i - 1];
      assert Linked(maxSize, lru, m, b, move, run[i - 1 + 1]);
      var pc := b.tr.st.threads[move.step.thread];
      if pc.Want? {
        WaitMove(maxSize, lru, n, m, schedule, b, move);
        schedule := schedule + [move.step.thread];
      } else if pc.Leave? {
        LeaveMove(maxSize, lru, n, m, schedule, b, move);
        schedule := schedule + [move.step.thread];
      } else {
        CallMove(maxSize, lru, n, m, schedule, b, move);
      }
      if run[i].tr != b.tr {
        OneMore(maxSize, lru, m, trs, steps, move.step, move.size);
        trs, steps := trs + [Next(b.tr, move.step, move.size)], steps + [(move.step, move.size)];
      }
    }
  }

  /** So with Anderson's lock itself: one thread at a time inside, no touch of freed memory,
      and no reader beside an unfinished inserter. */
  lemma LockingDesignIsSafe(maxSize: nat, lru: bool, n: nat, m: nat, run: seq<Both>, moves: seq<Move>, i: nat)
    requires IsRun(maxSize, lru, n, m, run, moves) && m <= n && i < |run|
    ensures var st := run[i].tr.st;
            && !st.fault
            && (forall t, u ::
                  (0 <= t < |st.threads| && 0 <= u < |st.threads|
                   && T.NeedsLock(st.threads[t]) && T.NeedsLock(st.threads[u])) ==> t == u)
            && forall id: T.Id :: T.Count(st, id, T.Reader) == 0 || T.Count(st, id, T.Inserter) == 0
  {
    var schedule, trs, steps := Refines(maxSize, lru, n, m, run, moves, i);
    var st := run[i].tr.st;
    assert States(trs)[|steps|] == st;
    forall t, u | 0 <= t < |st.threads| && 0 <= u < |st.threads| && T.NeedsLock(st.threads[t])
                  && T.NeedsLock(st.threads[u])
      ensures t == u
    {
      assert T.PcOk(st, t) && T.PcOk(st, u);
    }
    forall id: T.Id ensures T.Count(st, id, T.Reader) == 0 || T.Count(st, id, T.Inserter) == 0 {
      T.PayloadExclusion(m, States(trs), Steps(steps), |steps|, id);
    }
  }

  /** And under LRU it is a sequential partition: answers, LRU list and live elements are
      those of running the requests one by one, the calls in the order of their tickets. */
  lemma LockingDesignIsSequential(maxSize: nat, n: nat, m: nat, run: seq<Both>, moves: seq<Move>, i: nat)
    requires IsRun(maxSize, true, n, m, run, moves) && m <= n && i < |run|
    ensures var tr, p0 := run[i].tr, E.Empty(maxSize);
            var ops := Safety.LogOps(tr.log);
            var p := Lifetime.Run(E.Atomics, p0, ops);
            && Safety.LogAnswers(tr.log) == Lifetime.Answers(E.Atomics, p0, ops)
            && tr.grants == Queries(tr.log) + Pending(tr) && |Pending(tr)| <= 1
            && |tr.grants| <= |run[i].lock.arrivals|
            && (forall k :: 0 <= k < |tr.grants| ==> tr.grants[k].0 == run[i].lock.arrivals[k])
            && (tr.st.holder == None ==>
                  Pending(tr) == [] && tr.lru == p.lru && forall id: T.Id :: id in p.elems <==> Live(tr.st, id))
  {
    var schedule, trs, steps := Refines(maxSize, true, n, m, run, moves, i);
    LockedIsSequential(maxSize, m, trs, steps, |steps|);
    L.FairMutualExclusion(n, m, schedule);
  }
}
