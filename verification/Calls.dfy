/** Every client operation ends: each of its steps lowers a measure, and between two of
    them the client waits for a bounded number of steps of one server. */
module Calls {
  import opened Basics
  import opened Elements
  import opened Routes
  import opened System
  import opened Flow
  import opened Control
  import opened Progress

  /** A bound on the steps the operation in progress still makes.  Reading an answer takes
      up to four steps, and there are |pending| answers to read. */
  function Measure(n: nat, cl: Client): nat {
    var p := 4 * |cl.pending|;
    match cl.pc
    case Idle(_) => 0
    case Admit(_, _) => p + 5
    case Put(s, op, _) => if s < |cl.boxes| && WordsOf(cl.boxes[s].local) + Words(op) > INPB_SIZE then 4 else 2
    case PutFlush(_, _, _) => 3
    case Read(_) => p + 4
    case ReadFlush(_) => p + 3
    case ReadBlock(_) => p + 2
    case ReadyFlush(_) => 1
    case FlushAll(s) => p + 2 + (if s <= n then n - s else 0)
    case Drain => p + 1
  }

  lemma MeasureBound(n: nat, cl: Client)
    ensures Measure(n, cl) <= 4 * |cl.pending| + n + 5
  {
  }

  lemma TakeShorter(cl: Client, task: Task)
    requires CanTake(cl) && cl.rd <= |cl.got|
    ensures |Take(cl).pending| == |cl.pending| - 1
    ensures task.Submit? ==>
              AfterTake(Take(cl), task).pc == Admit(task.op, task.batch)
              && AfterTake(Take(cl), task).pending == Take(cl).pending
    ensures task.Deliver? && Take(cl).got[cl.rd].0 < |cl.boxes| ==> AfterTake(Take(cl), task).pc == Idle(false)
  {
  }

  lemma ReadLowers(n: nat, maxSize: nat, cl: Client, task: Task)
    requires ClientOk(n, maxSize, cl) && Enabled(n, maxSize, cl, Go)
             && (cl.pc == Read(task) || cl.pc == ReadBlock(task))
    ensures Measure(n, Go1(n, cl)) < Measure(n, cl)
  {
    if CanTake(cl) {
      TakeOk(n, cl);
      TakeShorter(cl, task);
    }
  }

  lemma WriteLowers(n: nat, maxSize: nat, cl: Client)
    requires ClientOk(n, maxSize, cl) && Enabled(n, maxSize, cl, Go) && (cl.pc.Put? || cl.pc.PutFlush?)
    ensures Measure(n, Go1(n, cl)) < Measure(n, cl)
  {
    if cl.pc.PutFlush? { FlushedOk(n, cl, cl.pc.s); }
  }

  /** Every step inside an operation of a client lowers its measure. */
  lemma GoLowers(n: nat, maxSize: nat, cl: Client)
    requires ClientOk(n, maxSize, cl) && Enabled(n, maxSize, cl, Go)
    ensures Measure(n, Go1(n, cl)) < Measure(n, cl)
  {
    match cl.pc
    case Admit(_, _) =>
    case Put(_, _, _) => WriteLowers(n, maxSize, cl);
    case PutFlush(_, _, _) => WriteLowers(n, maxSize, cl);
    case Read(task) => ReadLowers(n, maxSize, cl, task);
    case ReadFlush(_) =>
    case ReadBlock(task) => ReadLowers(n, maxSize, cl, task);
    case ReadyFlush(_) =>
    case FlushAll(_) =>
    case Drain => if cl.pending == [] { DeliverAllOk(n, cl); } else { TakeShorter(cl, Deliver); }
  }

  // Together with the waiting in between.

  /** The server a client waits for, if it waits. */
  function Awaited(cl: Client): nat {
    match cl.pc
    case PutFlush(s, _, _) => s
    case ReadyFlush(s) => s
    case FlushAll(s) => s
    case _ => if cl.pending != [] then cl.pending[0] else 0
  }

  lemma WaitsForAwaited(cl: Client, s: nat)
    requires Waits(cl, s)
    ensures s == Awaited(cl)
  {
  }

  /** More than any wait for one server. */
  function WaitLimit(nclients: nat): nat {
    (INPB_COUNT + 2) * (TURN * nclients) + 1
  }

  ghost predicate IsWaiting(n: nat, st: State, c: nat) {
    c < |st.clients| && Awaited(st.clients[c]) < n && Waits(st.clients[c], Awaited(st.clients[c]))
  }

  ghost function WaitNow(n: nat, st: State, c: nat): nat
    requires Shape(n, st)
  {
    if IsWaiting(n, st, c) then Wait(n, st, c, Awaited(st.clients[c])) + 1 else 0
  }

  /** Steps of c and of the server it waits for that are still to come in its operation. */
  ghost function Potential(n: nat, st: State, c: nat): nat
    requires Shape(n, st) && c < |st.clients|
  {
    Measure(n, st.clients[c]) * WaitLimit(|st.clients|) + WaitNow(n, st, c)
  }

  /** A step of the client, or of the server that it waits for at the time. */
  ghost predicate Useful(n: nat, st: State, step: Step, c: nat) {
    match step
    case ClientMove(d, _) => d == c
    case ServerMove(s) => IsWaiting(n, st, c) && s == Awaited(st.clients[c])
  }

  lemma WaitNowBound(n: nat, maxSize: nat, st: State, c: nat)
    requires SystemOk(n, maxSize, st) && c < |st.clients|
    ensures WaitNow(n, st, c) < WaitLimit(|st.clients|)
  {
    if IsWaiting(n, st, c) { WaitBound(n, maxSize, st, c, Awaited(st.clients[c])); }
  }

  lemma OneLess(m: nat, m': nat, w: nat, w': nat, limit: nat)
    requires m' < m && w' < limit
    ensures m' * limit + w' + 1 <= m * limit + w
  {
    assert m * limit == m' * limit + (m - m') * limit;
    assert (m - m') * limit >= limit by { Multiple(limit, m - m'); }
  }

  lemma OwnMove(n: nat, maxSize: nat, st: State, a: Act, c: nat, next: State)
    requires SystemOk(n, maxSize, st) && Linked(n, maxSize, st, ClientMove(c, a), next) && SystemOk(n, maxSize, next)
    requires !st.clients[c].pc.Idle?
    ensures c < |next.clients| && Potential(n, next, c) + 1 <= Potential(n, st, c)
  {
    var cl := st.clients[c];
    assert a == Go && ClientOk(n, maxSize, cl);
    GoLowers(n, maxSize, cl);
    WaitNowBound(n, maxSize, next, c);
    OneLess(Measure(n, cl), Measure(n, next.clients[c]), WaitNow(n, st, c), WaitNow(n, next, c),
            WaitLimit(|st.clients|));
  }

  /** What another step leaves alone of a client: everything but the servers' side of one
      box, where slots become free and answers arrive. */
  ghost predicate OnlyServed(cl: Client, r: Client) {
    && r.pc == cl.pc && r.pending == cl.pending && |r.boxes| == |cl.boxes|
    && forall t :: 0 <= t < |cl.boxes| ==>
         r.boxes[t].local == cl.boxes[t].local && |r.boxes[t].ring| <= |cl.boxes[t].ring|
           && cl.boxes[t].out <= r.boxes[t].out
  }

  lemma OthersOnlyServe(n: nat, maxSize: nat, st: State, step: Step, c: nat)
    requires Shape(n, st) && CanStep(n, maxSize, st, step) && c < |st.clients| && (step.ClientMove? ==> step.c != c)
    ensures c < |Apply(n, st, step).clients| && OnlyServed(st.clients[c], Apply(n, st, step).clients[c])
  {
    if step.ServerMove? { ServerStepClients(n, st, step.s); }
  }

  /** So it does not make a client wait that does not. */
  lemma NotMadeToWait(cl: Client, r: Client, s: nat)
    requires OnlyServed(cl, r) && Waits(r, s)
    ensures Waits(cl, s)
  {
  }

  lemma OtherMove(n: nat, maxSize: nat, st: State, step: Step, c: nat, next: State)
    requires SystemOk(n, maxSize, st) && Linked(n, maxSize, st, step, next) && SystemOk(n, maxSize, next)
    requires c < |st.clients| && (step.ClientMove? ==> step.c != c)
    ensures c < |next.clients|
    ensures WaitNow(n, next, c) + (if Useful(n, st, step, c) then 1 else 0) <= WaitNow(n, st, c)
    ensures Measure(n, next.clients[c]) <= Measure(n, st.clients[c]) && |next.clients| == |st.clients|
  {
    OthersOnlyServe(n, maxSize, st, step, c);
    SameMeasure(n, st.clients[c], next.clients[c]);
    OtherWait(n, maxSize, st, step, c, next);
  }

  lemma SameMeasure(n: nat, cl: Client, r: Client)
    requires OnlyServed(cl, r)
    ensures Measure(n, r) <= Measure(n, cl)
  {
  }

  lemma OtherWait(n: nat, maxSize: nat, st: State, step: Step, c: nat, next: State)
    requires SystemOk(n, maxSize, st) && Linked(n, maxSize, st, step, next) && SystemOk(n, maxSize, next)
    requires c < |st.clients| && c < |next.clients| && OnlyServed(st.clients[c], next.clients[c])
    requires step.ClientMove? ==> step.c != c
    ensures WaitNow(n, next, c) + (if Useful(n, st, step, c) then 1 else 0) <= WaitNow(n, st, c)
  {
    if IsWaiting(n, next, c) { WaitGoesOn(n, maxSize, st, step, c, next); }
  }

  lemma WaitGoesOn(n: nat, maxSize: nat, st: State, step: Step, c: nat, next: State)
    requires SystemOk(n, maxSize, st) && Linked(n, maxSize, st, step, next) && SystemOk(n, maxSize, next)
    requires c < |st.clients| && c < |next.clients| && OnlyServed(st.clients[c], next.clients[c])
    requires IsWaiting(n, next, c)
    ensures IsWaiting(n, st, c)
    ensures WaitNow(n, next, c) + (if step == ServerMove(Awaited(st.clients[c])) then 1 else 0) <= WaitNow(n, st, c)
  {
    var s := Awaited(st.clients[c]);
    NotMadeToWait(st.clients[c], next.clients[c], s);
    WaitStep(n, maxSize, st, step, c, s);
  }

  lemma PotentialStep(n: nat, maxSize: nat, st: State, step: Step, c: nat, next: State)
    requires SystemOk(n, maxSize, st) && Linked(n, maxSize, st, step, next) && SystemOk(n, maxSize, next)
    requires c < |st.clients| && !st.clients[c].pc.Idle?
    ensures c < |next.clients|
    ensures Potential(n, next, c) + (if Useful(n, st, step, c) then 1 else 0) <= Potential(n, st, c)
  {
    if step.ClientMove? && step.c == c {
      OwnMove(n, maxSize, st, step.act, c, next);
    } else {
      OtherMove(n, maxSize, st, step, c, next);
      NoMore(Measure(n, st.clients[c]), Measure(n, next.clients[c]), WaitLimit(|st.clients|));
    }
  }

  lemma NoMore(m: nat, m': nat, limit: nat)
    requires m' <= m
    ensures m' * limit <= m * limit
  {
  }

  ghost predicate Busy(n: nat, maxSize: nat, st: State, c: nat) {
    SystemOk(n, maxSize, st) && c < |st.clients| && !st.clients[c].pc.Idle?
  }

  ghost function CountUseful(n: nat, run: seq<State>, steps: seq<Step>, c: nat): nat
    requires |run| == |steps| + 1
  {
    if steps == [] then 0
    else
      var m := |steps| - 1;
      CountUseful(n, run[..m + 1], steps[..m], c) + (if Useful(n, run[m], steps[m], c) then 1 else 0)
  }

  /** CountUseful counts the useful steps. */
  lemma {:induction false} UsefulCount(n: nat, run: seq<State>, steps: seq<Step>, c: nat)
    requires |run| == |steps| + 1
    ensures CountUseful(n, run, steps, c) == |set k: nat | k < |steps| && Useful(n, run[k], steps[k], c)|
  {
    var here := set k: nat | k < |steps| && Useful(n, run[k], steps[k], c);
    if steps == [] {
      assert here == {};
    } else {
      var m: nat := |steps| - 1;
      var part, init := run[..m + 1], steps[..m];
      UsefulCount(n, part, init, c);
      var before := set k: nat | k < |init| && Useful(n, part[k], init[k], c);
      assert here == if Useful(n, run[m], steps[m], c) then before + {m} else before;
      OneMorePosition(before, here, m, Useful(n, run[m], steps[m], c));
    }
  }

  ghost predicate Reached(n: nat, maxSize: nat, st: State, c: nat) {
    SystemOk(n, maxSize, st) && c < |st.clients|
  }

  /** A stretch of a run in which an operation of client c is in progress. */
  ghost predicate InCall(n: nat, maxSize: nat, run: seq<State>, steps: seq<Step>, c: nat) {
    && |run| == |steps| + 1
    && (forall k :: 0 <= k < |run| ==> Reached(n, maxSize, run[k], c))
    && (forall k :: 0 <= k < |steps| ==>
          Busy(n, maxSize, run[k], c) && Linked(n, maxSize, run[k], steps[k], run[k + 1]))
  }

  lemma {:induction false} PotentialAlong(n: nat, maxSize: nat, run: seq<State>, steps: seq<Step>, c: nat)
    requires InCall(n, maxSize, run, steps, c)
    ensures Reached(n, maxSize, run[0], c) && Reached(n, maxSize, run[|steps|], c)
    ensures CountUseful(n, run, steps, c) + Potential(n, run[|steps|], c) <= Potential(n, run[0], c)
  {
    if steps == [] {
      assert Reached(n, maxSize, run[0], c);
    } else {
      var m := |steps| - 1;
      assert InCall(n, maxSize, run[..m + 1], steps[..m], c);
      PotentialAlong(n, maxSize, run[..m + 1], steps[..m], c);
      assert Busy(n, maxSize, run[m], c) && Linked(n, maxSize, run[m], steps[m], run[m + 1]);
      assert Reached(n, maxSize, run[m + 1], c);
      PotentialStep(n, maxSize, run[m], steps[m], c, run[m + 1]);
    }
  }

  lemma PotentialBound(n: nat, maxSize: nat, st: State, c: nat)
    requires Reached(n, maxSize, st, c)
    ensures Potential(n, st, c) <= (4 * |st.clients[c].pending| + n + 6) * WaitLimit(|st.clients|)
  {
    var cl, limit := st.clients[c], WaitLimit(|st.clients|);
    WaitNowBound(n, maxSize, st, c);
    MeasureBound(n, cl);
    NoMore(4 * |cl.pending| + n + 5, Measure(n, cl), limit);
    assert (4 * |cl.pending| + n + 6) * limit == (4 * |cl.pending| + n + 5) * limit + limit;
  }

  /** Every operation ends, whatever the other clients and servers do: as long as one is in
      progress, the steps made by its client and by the servers it waits for at the time
      are fewer than a bound fixed when it starts.  One query of smp_hash_doall counts as
      an operation, and so do its final flushes and reads together. */
  lemma CallEnds(n: nat, nclients: nat, maxSize: nat, run: seq<State>, steps: seq<Step>, i: nat, j: nat, c: nat)
    requires IsRun(n, nclients, maxSize, run, steps) && i <= j < |run|
    requires forall k :: i <= k <= j ==> c < |run[k].clients|
    requires forall k :: i <= k < j ==> !run[k].clients[c].pc.Idle?
    ensures CountUseful(n, run[i..j + 1], steps[i..j], c)
            <= (4 * |run[i].clients[c].pending| + n + 6) * WaitLimit(|run[i].clients|)
  {
    CallPotential(n, nclients, maxSize, run, steps, i, j, c);
    PotentialBound(n, maxSize, run[i], c);
  }

  lemma CallPotential(n: nat, nclients: nat, maxSize: nat, run: seq<State>, steps: seq<Step>, i: nat, j: nat, c: nat)
    requires IsRun(n, nclients, maxSize, run, steps) && i <= j < |run|
    requires forall k :: i <= k <= j ==> c < |run[k].clients|
    requires forall k :: i <= k < j ==> !run[k].clients[c].pc.Idle?
    ensures Reached(n, maxSize, run[i], c) && CountUseful(n, run[i..j + 1], steps[i..j], c) <= Potential(n, run[i], c)
  {
    CallStretch(n, nclients, maxSize, run, steps, i, j, c);
    PotentialAlong(n, maxSize, run[i..j + 1], steps[i..j], c);
    assert run[i..j + 1][0] == run[i];
  }

  lemma CallStretch(n: nat, nclients: nat, maxSize: nat, run: seq<State>, steps: seq<Step>, i: nat, j: nat, c: nat)
    requires IsRun(n, nclients, maxSize, run, steps) && i <= j < |run|
    requires forall k :: i <= k <= j ==> c < |run[k].clients|
    requires forall k :: i <= k < j ==> !run[k].clients[c].pc.Idle?
    ensures InCall(n, maxSize, run[i..j + 1], steps[i..j], c)
  {
    var part, moves := run[i..j + 1], steps[i..j];
    forall k | 0 <= k < |part| ensures Reached(n, maxSize, part[k], c) {
      ReachedAt(n, nclients, maxSize, run, steps, i + k, c);
    }
    forall k | 0 <= k < |moves|
      ensures Busy(n, maxSize, part[k], c) && Linked(n, maxSize, part[k], moves[k], part[k + 1])
    {
      BusyAt(n, nclients, maxSize, run, steps, i + k, c);
    }
  }

  lemma ReachedAt(n: nat, nclients: nat, maxSize: nat, run: seq<State>, steps: seq<Step>, k: nat, c: nat)
    requires IsRun(n, nclients, maxSize, run, steps) && k < |run| && c < |run[k].clients|
    ensures Reached(n, maxSize, run[k], c)
  {
    RunOk(n, nclients, maxSize, run, steps, k);
  }

  lemma BusyAt(n: nat, nclients: nat, maxSize: nat, run: seq<State>, steps: seq<Step>, k: nat, c: nat)
    requires IsRun(n, nclients, maxSize, run, steps) && k < |steps| && c < |run[k].clients|
             && !run[k].clients[c].pc.Idle?
    ensures Busy(n, maxSize, run[k], c) && Linked(n, maxSize, run[k], steps[k], run[k + 1])
  {
    RunOk(n, nclients, maxSize, run, steps, k);
  }

  /** And there is always such a step to make: the client can move, or it waits for a
      server, which can. */
  lemma UsefulStepExists(n: nat, nclients: nat, maxSize: nat, run: seq<State>, steps: seq<Step>, i: nat, c: nat)
      returns (step: Step)
    requires IsRun(n, nclients, maxSize, run, steps) && i < |run| && c < |run[i].clients| && !run[i].clients[c].pc.Idle?
    ensures Shape(n, run[i]) && CanStep(n, maxSize, run[i], step) && Useful(n, run[i], step, c)
  {
    RunOk(n, nclients, maxSize, run, steps, i);
    var cl := run[i].clients[c];
    if Enabled(n, maxSize, cl, Go) {
      step := ClientMove(c, Go);
    } else {
      assert ClientOk(n, maxSize, cl);
      StuckWaits(n, maxSize, cl);
      var s :| 0 <= s < n && Waits(cl, s);
      WaitsForAwaited(cl, s);
      step := ServerMove(s);
    }
  }
}
