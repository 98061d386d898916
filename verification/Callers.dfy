/** The message-passing table as its callers see it: every call is carried out as it was
    made, and the values come back in the order of the calls. */
module Callers {
  import opened Basics
  import opened Elements
  import Lifetime
  import opened Routes
  import opened System
  import opened Flow
  import opened Control
  import opened Window
  import Lru
  import References
  import Safety
  import Serial

  // What was asked for.

  /** The server of a query by its key; releases name theirs. */
  function Addressed(n: nat, op: Op): (nat, Op)
    requires n > 0
  {
    (if op.Release? then 0 else op.key % n, op)
  }

  /** The request a call is for. */
  function CallOf(n: nat, a: Act): seq<(nat, Op)>
    requires n > 0
  {
    match a
    case Begin(op) => [Addressed(n, op)]
    case GiveBack(s, r) => [(s, Release(r))]
    case _ => []
  }

  function CallBy(n: nat, step: Step, c: nat): seq<(nat, Op)>
    requires n > 0
  {
    if step.ClientMove? && step.c == c then CallOf(n, step.act) else []
  }

  /** All requests client c has made by its calls, each with its server. */
  function Called(n: nat, steps: seq<Step>, c: nat): seq<(nat, Op)>
    requires n > 0
  {
    if steps == [] then [] else Called(n, steps[..|steps| - 1], c) + CallBy(n, steps[|steps| - 1], c)
  }

  /** The request of the call in progress, as long as it is not written. */
  function InHand(n: nat, pc: Pc): seq<(nat, Op)>
    requires n > 0
  {
    match pc
    case Admit(op, _) => [Addressed(n, op)]
    case Put(s, op, _) => [(s, op)]
    case PutFlush(s, op, _) => [(s, op)]
    case Read(task) => if task.Submit? then [Addressed(n, task.op)] else []
    case ReadFlush(task) => if task.Submit? then [Addressed(n, task.op)] else []
    case ReadBlock(task) => if task.Submit? then [Addressed(n, task.op)] else []
    case _ => []
  }

  ghost predicate Carries(n: nat, cl: Client, a: Act, r: Client)
    requires n > 0
  {
    cl.cmds <= r.cmds && r.cmds + InHand(n, r.pc) == cl.cmds + InHand(n, cl.pc) + CallOf(n, a)
  }

  lemma GoCarries(n: nat, maxSize: nat, cl: Client)
    requires ClientOk(n, maxSize, cl) && Enabled(n, maxSize, cl, Go)
    ensures Carries(n, cl, Go, Go1(n, cl))
  {
    if cl.pc.Drain? && cl.pending == [] { DeliverAllOk(n, cl); }
  }

  lemma StepCarries(n: nat, maxSize: nat, cl: Client, a: Act)
    requires ClientOk(n, maxSize, cl) && Enabled(n, maxSize, cl, a)
    ensures Carries(n, cl, a, ClientStep(n, cl, a))
  {
    if a == Go {
      GoCarries(n, maxSize, cl);
    } else if a == Get {
      if cl.later != [] { DeliverLaterOk(n, cl); } else if cl.rd < |cl.got| { DeliverOk(n, cl); }
    }
  }

  lemma ClientAfter(n: nat, maxSize: nat, st: State, step: Step, next: State, c: nat)
    requires SystemOk(n, maxSize, st) && Linked(n, maxSize, st, step, next) && c < |st.clients|
    ensures c < |next.clients|
    ensures if step.ClientMove? && step.c == c then
              ClientOk(n, maxSize, st.clients[c]) && Enabled(n, maxSize, st.clients[c], step.act)
              && next.clients[c] == ClientStep(n, st.clients[c], step.act)
            else next.clients[c] == st.clients[c].(boxes := next.clients[c].boxes)
  {
    if step.ServerMove? { ServerStepClients(n, st, step.s); }
  }

  /** Whatever a client has called for has been written for the right server, in the order
      of the calls, but for the call in progress. */
  lemma {:induction false} CallsAreWritten(n: nat, nclients: nat, maxSize: nat, run: seq<State>, steps: seq<Step>,
                                           i: nat, c: nat)
    requires IsRun(n, nclients, maxSize, run, steps) && i < |run| && c < nclients
    ensures c < |run[i].clients|
    ensures run[i].clients[c].cmds + InHand(n, run[i].clients[c].pc) == Called(n, steps[..i], c)
  {
    if i > 0 {
      CallsAreWritten(n, nclients, maxSize, run, steps, i - 1, c);
      RunOk(n, nclients, maxSize, run, steps, i - 1);
      assert Linked(n, maxSize, run[i - 1], steps[i - 1], run[i - 1 + 1]);
      ClientAfter(n, maxSize, run[i - 1], steps[i - 1], run[i], c);
      assert steps[..i][..i - 1] == steps[..i - 1];
      if steps[i - 1].ClientMove? && steps[i - 1].c == c {
        StepCarries(n, maxSize, run[i - 1].clients[c], steps[i - 1].act);
      }
    }
  }

  // mp_mark_ready.

  predicate IsMark(op: Op) {
    op.Release? && op.ref.Ref? && op.ref.hold == Inserter
  }

  /** A mark waits in a local buffer only inside the call that made it. */
  ghost predicate MarksOut(cl: Client) {
    forall s: nat, i :: s < |cl.boxes| && 0 <= i < |cl.boxes[s].local| && IsMark(cl.boxes[s].local[i]) ==>
      cl.pc == ReadyFlush(s)
  }

  /** Every local buffer is as it was, or empty. */
  ghost predicate NothingWritten(cl: Client, r: Client) {
    |r.boxes| == |cl.boxes|
    && forall s: nat :: s < |cl.boxes| ==> r.boxes[s].local == cl.boxes[s].local || r.boxes[s].local == []
  }

  lemma AppendMarks(n: nat, cl: Client)
    requires n > 0 && n == |cl.boxes| == |cl.credit| && cl.rd <= |cl.got| && cl.pc.Put? && cl.pc.s < n && MarksOut(cl)
    ensures MarksOut(Go1(n, cl))
  {
  }

  lemma FlushMarks(n: nat, maxSize: nat, cl: Client)
    requires ClientOk(n, maxSize, cl) && cl.pc.ReadyFlush? && Enabled(n, maxSize, cl, Go) && MarksOut(cl)
    ensures MarksOut(Go1(n, cl))
  {
    FlushedOk(n, cl, cl.pc.s);
  }

  lemma TakenLocals(n: nat, cl: Client, task: Task)
    requires DataOk(n, cl) && CanTake(cl)
    ensures NothingWritten(cl, Take(cl)) && NothingWritten(cl, AfterTake(Take(cl), task))
  {
    var t := Take(cl);
    assert NothingWritten(cl, t);
    if task.Deliver? && t.rd < |t.got| {
      TakeOk(n, cl);
      DeliverOk(n, t);
    }
  }

  lemma FlushedLocals(cl: Client, s: nat, pc: Pc)
    requires s < |cl.boxes|
    ensures NothingWritten(cl, Flushed(cl, s).(pc := pc))
  {
  }

  lemma GoLocals(n: nat, maxSize: nat, cl: Client)
    requires ClientOk(n, maxSize, cl) && Enabled(n, maxSize, cl, Go) && !cl.pc.Put? && !cl.pc.ReadyFlush?
    ensures NothingWritten(cl, Go1(n, cl))
  {
    match cl.pc
    case Read(task) => if CanTake(cl) { TakenLocals(n, cl, task); }
    case ReadBlock(task) => TakenLocals(n, cl, task);
    case Drain => if cl.pending == [] { DeliverAllOk(n, cl); } else { TakenLocals(n, cl, Deliver); }
    case PutFlush(s, op, batch) => FlushedLocals(cl, s, Put(s, op, batch));
    case ReadFlush(task) => FlushedLocals(cl, cl.pending[0], ReadBlock(task));
    case FlushAll(s) => if s < n { FlushedLocals(cl, s, FlushAll(s + 1)); }
    case _ =>
  }

  lemma StepMarks(n: nat, maxSize: nat, cl: Client, a: Act)
    requires ClientOk(n, maxSize, cl) && Enabled(n, maxSize, cl, a) && MarksOut(cl)
    ensures MarksOut(ClientStep(n, cl, a))
  {
    if a == Go && cl.pc.Put? {
      AppendMarks(n, cl);
    } else if a == Go && cl.pc.ReadyFlush? {
      FlushMarks(n, maxSize, cl);
    } else {
      if a == Go {
        GoLocals(n, maxSize, cl);
      } else if a == Get {
        if cl.later != [] { DeliverLaterOk(n, cl); } else if cl.rd < |cl.got| { DeliverOk(n, cl); }
      }
      assert NothingWritten(cl, ClientStep(n, cl, a));
    }
  }

  lemma {:induction false} RunMarks(n: nat, nclients: nat, maxSize: nat, run: seq<State>, steps: seq<Step>, i: nat,
                                    c: nat)
    requires IsRun(n, nclients, maxSize, run, steps) && i < |run| && c < nclients
    ensures c < |run[i].clients| && MarksOut(run[i].clients[c])
  {
    if i == 0 {
      StartMarks(n, nclients, maxSize, c);
    } else {
      RunMarks(n, nclients, maxSize, run, steps, i - 1, c);
      RunOk(n, nclients, maxSize, run, steps, i - 1);
      assert Linked(n, maxSize, run[i - 1], steps[i - 1], run[i - 1 + 1]);
      NextMarks(n, maxSize, run[i - 1], steps[i - 1], run[i], c);
    }
  }

  lemma StartMarks(n: nat, nclients: nat, maxSize: nat, c: nat)
    requires c < nclients
    ensures MarksOut(Start(n, nclients, maxSize).clients[c])
  {
  }

  lemma NextMarks(n: nat, maxSize: nat, st: State, step: Step, next: State, c: nat)
    requires SystemOk(n, maxSize, st) && Linked(n, maxSize, st, step, next)
    requires c < |st.clients| && MarksOut(st.clients[c])
    ensures c < |next.clients| && MarksOut(next.clients[c])
  {
    ClientAfter(n, maxSize, st, step, next, c);
    if step.ClientMove? && step.c == c {
      StepMarks(n, maxSize, st.clients[c], step.act);
    } else if step.ServerMove? {
      ServedLocals(n, st, step.s, c);
    }
  }

  lemma ServedLocals(n: nat, st: State, s: nat, c: nat)
    requires Shape(n, st) && s < n && c < |st.clients|
    ensures var r := ServerStep(n, st, s);
            && c < |r.clients| && r.clients[c].pc == st.clients[c].pc && |r.clients[c].boxes| == |st.clients[c].boxes|
            && forall t: nat :: t < |st.clients[c].boxes| ==>
                 r.clients[c].boxes[t].local == st.clients[c].boxes[t].local
  {
    ServerStepClients(n, st, s);
  }

  /** mp_mark_ready has published its release message before it returns: whenever a client
      is between calls, none is left in a local buffer. */
  lemma MarksArePublished(n: nat, nclients: nat, maxSize: nat, run: seq<State>, steps: seq<Step>, i: nat, c: nat)
    requires IsRun(n, nclients, maxSize, run, steps) && i < |run| && c < nclients
    ensures c < |run[i].clients|
    ensures run[i].clients[c].pc.Idle? ==>
              forall s: nat, id :: s < |run[i].clients[c].boxes| ==>
                Release(Ref(id, Inserter)) !in run[i].clients[c].boxes[s].local
  {
    RunMarks(n, nclients, maxSize, run, steps, i, c);
  }

  lemma {:induction false} LoggedOp(log: seq<(nat, Event)>, c: nat, op: Op)
    requires op in OpsOf(Route(log, c))
    ensures op in Safety.LogOps(log)
  {
    if log != [] {
      var init, last := log[..|log| - 1], log[|log| - 1];
      if last.0 == c {
        OpsSnoc(Route(init, c), last.1);
        if op != last.1.op { LoggedOp(init, c, op); }
      } else {
        assert Route(log, c) == Route(init, c);
        LoggedOp(init, c, op);
      }
    }
  }

  ghost predicate Ready(p: Part, id: Id) {
    && (id in p.elems ==> !p.elems[id].notReady)
    && forall key :: Lru.Find(p.lru, key) < |p.lru| && p.lru[Lru.Find(p.lru, key)].elem == id ==>
         ExecLookup(p, key).1 == Ref(id, Reader)
  }

  lemma ServedMark(n: nat, maxSize: nat, st: State, c: nat, s: nat, id: Id)
    requires Safety.SafeState(n, maxSize, st) && s < n && c < |st.clients|
    requires Release(Ref(id, Inserter)) in OpsOf(st.clients[c].boxes[s].served)
    ensures Ready(st.servers[s].part, id)
  {
    var p, log := st.servers[s].part, st.servers[s].log;
    assert Safety.TableOk(n, maxSize, st, s);
    LoggedOp(log, c, Release(Ref(id, Inserter)));
    ReadyInLog(maxSize, p, log, References.Sum(st.clients, s), id);
  }

  lemma ReadyInLog(maxSize: nat, p: Part, log: seq<(nat, Event)>, T: multiset<Answer>, id: Id)
    requires Safety.LogOk(maxSize, p, log, T) && Release(Ref(id, Inserter)) in Safety.LogOps(log)
    ensures Ready(p, id)
  {
    var ops := Safety.LogOps(log);
    Lifetime.RunOk(Messages, maxSize, ops);
    Lifetime.MarkedForGood(Messages, maxSize, ops, id);
    Lifetime.InserterOnce(Messages, p, T, id);
    forall key | Lru.Find(p.lru, key) < |p.lru| && p.lru[Lru.Find(p.lru, key)].elem == id
      ensures ExecLookup(p, key).1 == Ref(id, Reader)
    {
      Lifetime.LookupAnswer(Messages, p, T, key);
    }
  }

  lemma {:induction false} CmdsGrow(n: nat, nclients: nat, maxSize: nat, run: seq<State>, steps: seq<Step>,
                                    i: nat, j: nat, c: nat)
    requires IsRun(n, nclients, maxSize, run, steps) && i <= j < |run| && c < |run[i].clients|
    ensures c < |run[j].clients| && run[i].clients[c].cmds <= run[j].clients[c].cmds
  {
    if i < j {
      CmdsGrow(n, nclients, maxSize, run, steps, i, j - 1, c);
      RunOk(n, nclients, maxSize, run, steps, j - 1);
      assert Linked(n, maxSize, run[j - 1], steps[j - 1], run[j - 1 + 1]);
      ClientAfter(n, maxSize, run[j - 1], steps[j - 1], run[j], c);
      if steps[j - 1].ClientMove? && steps[j - 1].c == c {
        StepCarries(n, maxSize, run[j - 1].clients[c], steps[j - 1].act);
      }
    }
  }

  lemma {:induction false} RouteGrows<T>(xs: seq<(nat, T)>, ys: seq<(nat, T)>, t: nat)
    requires xs <= ys
    ensures Route(xs, t) <= Route(ys, t)
  {
    assert ys == xs + ys[|xs|..];
    RouteConcat(xs, ys[|xs|..], t);
  }

  /** A request that was written before `served` others and is not in the local buffer. */
  lemma AmongServed(cl: Client, later: Client, s: nat, op: Op)
    requires s < |cl.boxes| && s < |later.boxes| && FifoOk(cl, s, cl.boxes[s]) && FifoOk(later, s, later.boxes[s])
    requires cl.cmds <= later.cmds && (s, op) in cl.cmds && op !in cl.boxes[s].local
    requires PublishedCount(cl.boxes[s]) <= |later.boxes[s].served|
    ensures op in OpsOf(later.boxes[s].served)
  {
    var b := cl.boxes[s];
    var done := OpsOf(b.served) + b.hand + Flat(b.ring);
    RouteMember(cl.cmds, s, op);
    RouteGrows(cl.cmds, later.cmds, s);
    OpsLength(b.served);
    OpsLength(later.boxes[s].served);
    assert op in done + b.local;
    var k :| 0 <= k < |done| && done[k] == op;
    assert Route(cl.cmds, s)[k] == op && Route(later.cmds, s)[k] == op;
    assert OpsOf(later.boxes[s].served)[k] == op;
  }

  lemma {:induction false} OpsLength(es: seq<Event>)
    ensures |OpsOf(es)| == |es|
  {
    if es != [] { OpsLength(es[..|es| - 1]); }
  }

  /** Requests of a client that have reached the ring of a server. */
  ghost function PublishedCount(b: Box): nat {
    |b.served| + |b.hand| + |Flat(b.ring)|
  }

  /** mp_mark_ready makes the element ready: once the server has served as many requests of
      the client as were published when the call had returned, and at any time after that,
      the element is gone or ready, and a lookup that finds it hits, although the client
      has made no other call. */
  lemma MarkedReady(n: nat, nclients: nat, maxSize: nat, run: seq<State>, steps: seq<Step>, i: nat, j: nat,
                    c: nat, s: nat, id: Id)
    requires IsRun(n, nclients, maxSize, run, steps) && i <= j < |run| && c < nclients && s < n
    requires Shape(n, run[i]) && c < |run[i].clients| && run[i].clients[c].pc.Idle?
    requires (s, Release(Ref(id, Inserter))) in Called(n, steps[..i], c)
    requires Shape(n, run[j]) && c < |run[j].clients|
    requires PublishedCount(run[i].clients[c].boxes[s]) <= |run[j].clients[c].boxes[s].served|
    ensures Ready(run[j].servers[s].part, id)
  {
    var cl, later := run[i].clients[c], run[j].clients[c];
    CallsAreWritten(n, nclients, maxSize, run, steps, i, c);
    MarksArePublished(n, nclients, maxSize, run, steps, i, c);
    CmdsGrow(n, nclients, maxSize, run, steps, i, j, c);
    RunOk(n, nclients, maxSize, run, steps, i);
    Safety.RunSafe(n, nclients, maxSize, run, steps, j);
    assert ClientOk(n, maxSize, cl) && ClientOk(n, maxSize, later);
    assert BoxOk(cl, s) && BoxOk(later, s);
    AmongServed(cl, later, s, Release(Ref(id, Inserter)));
    ServedMark(n, maxSize, run[j], c, s, id);
  }

  // What the calls return.

  /** The values a step hands to the caller: smp_get_next takes the oldest undelivered one
      or waits for it, smp_hash_doall returns all of its own at its end. */
  function Handed(cl: Client, a: Act): seq<(nat, Answer)> {
    match a
    case Get =>
      if cl.later != [] then cl.later[..1] else if cl.rd < |cl.got| then cl.got[cl.rd..cl.rd + 1] else []
    case Go =>
      (match cl.pc
       case Read(task) => if task.Deliver? then Unread(cl) else []
       case ReadBlock(task) => if task.Deliver? then Unread(cl) else []
       case Drain => if cl.pending == [] && cl.rd <= |cl.got| then cl.got[cl.rd..] else []
       case _ => [])
    case _ => []
  }

  /** The answer the client reads next, if it is there. */
  function Unread(cl: Client): seq<(nat, Answer)> {
    if CanTake(cl) then [(cl.pending[0], cl.boxes[cl.pending[0]].out[0])] else []
  }

  function GivenAway(cl: Client, a: Act, t: nat): multiset<Answer> {
    if a == Go && cl.pc.Put? && cl.pc.s == t && cl.pc.op.Release? && t < |cl.boxes|
       && WordsOf(cl.boxes[t].local) + Words(cl.pc.op) <= INPB_SIZE then multiset{cl.pc.op.ref}
    else multiset{}
  }

  /** How many of the values the caller has for server t after a step are x. */
  ghost predicate HeldAfter(cl: Client, a: Act, r: Client, t: nat, x: Answer)
    requires t < |cl.boxes| && t < |r.boxes|
  {
    r.boxes[t].held[x] + GivenAway(cl, a, t)[x] == cl.boxes[t].held[x] + Times(Handed(cl, a), t, x)
  }

  /** How often x is there for server t. */
  function Times(xs: seq<(nat, Answer)>, t: nat, x: Answer): nat {
    if xs == [] then 0 else Times(xs[1..], t, x) + (if xs[0] == (t, x) then 1 else 0)
  }

  lemma TimesOne(xs: seq<(nat, Answer)>, t: nat, x: Answer)
    requires |xs| == 1
    ensures Times(xs, t, x) == if xs[0] == (t, x) then 1 else 0
  {
    assert xs[1..] == [];
  }

  lemma {:induction false} DeliverAllHeld(cl: Client, t: nat, x: Answer)
    requires cl.rd <= |cl.got| && t < |cl.boxes|
    requires forall i :: 0 <= i < |cl.got| ==> cl.got[i].0 < |cl.boxes|
    ensures t < |DeliverAll(cl).boxes|
    ensures DeliverAll(cl).boxes[t].held[x] == cl.boxes[t].held[x] + Times(cl.got[cl.rd..], t, x)
    decreases |cl.got| - cl.rd
  {
    if cl.rd < |cl.got| {
      NextHeld(cl, t, x);
      DeliverAllHeld(DeliverNext(cl), t, x);
      assert cl.got[cl.rd..][1..] == cl.got[cl.rd + 1..];
    } else {
      assert cl.got[cl.rd..] == [];
    }
  }

  lemma NextHeld(cl: Client, t: nat, x: Answer)
    requires cl.rd < |cl.got| && cl.got[cl.rd].0 < |cl.boxes| && t < |cl.boxes|
    ensures DeliverNext(cl).boxes[t].held[x] == cl.boxes[t].held[x] + (if cl.got[cl.rd] == (t, x) then 1 else 0)
  {
  }

  lemma LaterHeld(cl: Client, t: nat, x: Answer)
    requires cl.later != [] && cl.later[0].0 < |cl.boxes| && t < |cl.boxes|
    ensures DeliverLater(cl).boxes[t].held[x] == cl.boxes[t].held[x] + (if cl.later[0] == (t, x) then 1 else 0)
  {
  }

  lemma TakeHeld(cl: Client, task: Task, t: nat, x: Answer)
    requires CanTake(cl) && t < |cl.boxes| && (task.Deliver? ==> cl.rd == |cl.got|)
    ensures var r := AfterTake(Take(cl), task);
            t < |r.boxes|
            && r.boxes[t].held[x] == cl.boxes[t].held[x] + (if task.Deliver? then Times(Unread(cl), t, x) else 0)
  {
    TimesOne(Unread(cl), t, x);
    if task.Deliver? {
      FirstUnread(cl);
      NextHeld(Take(cl), t, x);
    }
  }

  lemma ReadHeld(n: nat, maxSize: nat, cl: Client, t: nat, x: Answer)
    requires ClientOk(n, maxSize, cl) && CanTake(cl) && (cl.pc.Read? || cl.pc.ReadBlock?) && t < n
    ensures t < |Go1(n, cl).boxes| && HeldAfter(cl, Go, Go1(n, cl), t, x)
  {
    TakesTask(n, maxSize, cl, cl.pc.task);
    TakeHeld(cl, cl.pc.task, t, x);
  }

  lemma PutHeld(n: nat, cl: Client, t: nat, x: Answer)
    requires n > 0 && n == |cl.boxes| == |cl.credit| && cl.rd <= |cl.got| && t < n && cl.pc.Put? && cl.pc.s < n
    requires cl.pc.op.Release? ==> cl.pc.op.ref in cl.boxes[cl.pc.s].held
    ensures t < |Go1(n, cl).boxes| && HeldAfter(cl, Go, Go1(n, cl), t, x)
  {
  }

  /** Go1 neither delivers nor writes. */
  lemma QuietHeld(n: nat, maxSize: nat, cl: Client, t: nat, x: Answer)
    requires ClientOk(n, maxSize, cl) && Enabled(n, maxSize, cl, Go) && t < n && !cl.pc.Put? && !cl.pc.ReadBlock?
    requires (cl.pc.Read? ==> !CanTake(cl)) && (cl.pc.Drain? ==> cl.pending != [])
    ensures t < |Go1(n, cl).boxes| && HeldAfter(cl, Go, Go1(n, cl), t, x)
  {
  }

  /** What a step hands over is what the caller then holds. */
  lemma StepHeld(n: nat, maxSize: nat, cl: Client, a: Act, t: nat, x: Answer)
    requires ClientOk(n, maxSize, cl) && Enabled(n, maxSize, cl, a) && t < n
    ensures t < |ClientStep(n, cl, a).boxes| && HeldAfter(cl, a, ClientStep(n, cl, a), t, x)
  {
    if a == Get {
      if cl.later != [] { LaterHeld(cl, t, x); } else if cl.rd < |cl.got| { NextHeld(cl, t, x); }
      if Handed(cl, a) != [] { TimesOne(Handed(cl, a), t, x); }
    } else if a == Go {
      GoHeld(n, maxSize, cl, t, x);
    }
  }

  lemma GoHeld(n: nat, maxSize: nat, cl: Client, t: nat, x: Answer)
    requires ClientOk(n, maxSize, cl) && Enabled(n, maxSize, cl, Go) && t < n
    ensures t < |Go1(n, cl).boxes| && HeldAfter(cl, Go, Go1(n, cl), t, x)
  {
    if (cl.pc.Read? || cl.pc.ReadBlock?) && CanTake(cl) {
      ReadHeld(n, maxSize, cl, t, x);
    } else if cl.pc.Put? {
      PutHeld(n, cl, t, x);
    } else if cl.pc.Drain? && cl.pending == [] {
      DeliverAllHeld(cl, t, x);
    } else {
      QuietHeld(n, maxSize, cl, t, x);
    }
  }

  // In what order.

  /** What can be told from the calls and returns of a client: for each query called for,
      whether it was inside smp_hash_doall; whether the client is there now; and the values
      returned, by smp_get_next and by smp_hash_doall. */
  datatype Ledger = Ledger(modes: seq<bool>, open: bool, byGet: seq<(nat, Answer)>, byDoall: seq<(nat, Answer)>)

  function Enter(l: Ledger, cl: Client, a: Act): Ledger {
    Ledger(
      if a.Begin? then l.modes + [l.open] else l.modes,
      if a.BeginBatch? then true else if a.EndBatch? then false else l.open,
      if cl.pc.Drain? then l.byGet else l.byGet + Handed(cl, a),
      if cl.pc.Drain? then l.byDoall + Handed(cl, a) else l.byDoall)
  }

  ghost function LedgerOf(run: seq<State>, steps: seq<Step>, i: nat, c: nat): Ledger
    requires i < |run| == |steps| + 1
  {
    if i == 0 then Ledger([], false, [], [])
    else
      var l := LedgerOf(run, steps, i - 1, c);
      if steps[i - 1].ClientMove? && steps[i - 1].c == c < |run[i - 1].clients| then
        Enter(l, run[i - 1].clients[c], steps[i - 1].act)
      else l
  }

  /** The items whose mode is b. */
  function Select<T>(xs: seq<T>, modes: seq<bool>, b: bool): seq<T>
    requires |xs| <= |modes|
  {
    if xs == [] then [] else
      var n := |xs| - 1;
      Select(xs[..n], modes, b) + (if modes[n] == b then [xs[n]] else [])
  }

  lemma {:induction false} SelectMore<T>(xs: seq<T>, modes: seq<bool>, more: seq<bool>, b: bool)
    requires |xs| <= |modes| && modes <= more
    ensures Select(xs, modes, b) == Select(xs, more, b)
  {
    if xs != [] { SelectMore(xs[..|xs| - 1], modes, more, b); }
  }

  lemma SelectSnoc<T>(xs: seq<T>, x: T, modes: seq<bool>, b: bool)
    requires |xs| < |modes|
    ensures Select(xs + [x], modes, b) == Select(xs, modes, b) + (if modes[|xs|] == b then [x] else [])
  {
    assert (xs + [x])[..|xs|] == xs;
  }

  ghost predicate ModesOk(n: nat, cl: Client, modes: seq<bool>, open: bool)
    requires n > 0
  {
    && open == (InBatch(cl.pc) && !cl.pc.FlushAll? && !cl.pc.Drain?)
    && |modes| == |cl.got| + |cl.pending| + Admitted(cl.pc)
    && (forall k :: cl.rd <= k < |modes| ==> modes[k] == InBatch(cl.pc))
    && (cl.pc.Put? || cl.pc.PutFlush? ==> cl.pc.op.Release? ==> !cl.pc.batch)
  }

  /** The values returned and those read and not returned yet are all that was read. */
  ghost predicate SumsOk(l: Ledger, later: seq<(nat, Answer)>, rest: seq<(nat, Answer)>, got: seq<(nat, Answer)>,
                         inBatch: bool)
  {
    && |got| <= |l.modes|
    && l.byGet + later + (if inBatch then [] else rest) == Select(got, l.modes, false)
    && l.byDoall + (if inBatch then rest else []) == Select(got, l.modes, true)
  }

  ghost predicate LedgerOk(n: nat, cl: Client, l: Ledger)
    requires n > 0
  {
    && cl.rd <= |cl.got| && ModesOk(n, cl, l.modes, l.open)
    && SumsOk(l, cl.later, cl.got[cl.rd..], cl.got, InBatch(cl.pc))
  }

  lemma AskedOne(x: (nat, Op))
    ensures Asked([x]) == if x.1.Release? then [] else [x]
  {
    assert [x][..0] == [] && Asked([]) == [];
  }

  lemma SumsTake(l: Ledger, later: seq<(nat, Answer)>, rest: seq<(nat, Answer)>, got: seq<(nat, Answer)>,
                 inBatch: bool, x: (nat, Answer))
    requires SumsOk(l, later, rest, got, inBatch) && |got| < |l.modes| && l.modes[|got|] == inBatch
    ensures SumsOk(l, later, rest + [x], got + [x], inBatch)
  {
    SelectSnoc(got, x, l.modes, false);
    SelectSnoc(got, x, l.modes, true);
    if inBatch { assert l.byDoall + (rest + [x]) == l.byDoall + rest + [x]; }
    else { assert l.byGet + later + (rest + [x]) == l.byGet + later + rest + [x]; }
  }

  /** One more value returned by smp_get_next, the oldest there is. */
  lemma SumsGet(l: Ledger, later: seq<(nat, Answer)>, rest: seq<(nat, Answer)>, got: seq<(nat, Answer)>,
                x: (nat, Answer), later': seq<(nat, Answer)>, rest': seq<(nat, Answer)>)
    requires SumsOk(l, later, rest, got, false) && later + rest == [x] + (later' + rest')
    ensures SumsOk(l.(byGet := l.byGet + [x]), later', rest', got, false)
  {
    assert l.byGet + later + rest == l.byGet + (later + rest);
    assert l.byGet + ([x] + (later' + rest')) == l.byGet + [x] + later' + rest';
  }

  lemma SumsSetAside(l: Ledger, later: seq<(nat, Answer)>, rest: seq<(nat, Answer)>, got: seq<(nat, Answer)>)
    requires SumsOk(l, later, rest, got, false)
    ensures SumsOk(l.(open := true), later + rest, [], got, true)
  {
    assert l.byGet + (later + rest) == l.byGet + later + rest;
  }

  lemma SumsDoall(l: Ledger, later: seq<(nat, Answer)>, rest: seq<(nat, Answer)>, got: seq<(nat, Answer)>)
    requires SumsOk(l, later, rest, got, true)
    ensures SumsOk(l.(byDoall := l.byDoall + rest), later, [], got, false)
  {
  }

  lemma SumsBegin(l: Ledger, later: seq<(nat, Answer)>, rest: seq<(nat, Answer)>, got: seq<(nat, Answer)>,
                  inBatch: bool)
    requires SumsOk(l, later, rest, got, inBatch)
    ensures SumsOk(l.(modes := l.modes + [l.open]), later, rest, got, inBatch)
  {
    SelectMore(got, l.modes, l.modes + [l.open], false);
    SelectMore(got, l.modes, l.modes + [l.open], true);
  }

  /** Steps that read and return nothing. */
  ghost predicate Quiet(n: nat, cl: Client, r: Client)
    requires n > 0
  {
    && r.got == cl.got && r.rd == cl.rd && r.later == cl.later
    && |r.pending| + Admitted(r.pc) == |cl.pending| + Admitted(cl.pc)
    && InBatch(r.pc) == InBatch(cl.pc) && !r.pc.Drain?
  }

  lemma QuietLedger(n: nat, cl: Client, a: Act, r: Client, l: Ledger)
    requires n > 0 && LedgerOk(n, cl, l) && Quiet(n, cl, r) && a == Go && Handed(cl, a) == [] && !cl.pc.Drain?
    requires cl.pc.FlushAll? <==> r.pc.FlushAll?
    requires r.pc.Put? || r.pc.PutFlush? ==> r.pc.op.Release? ==> !r.pc.batch
    ensures LedgerOk(n, r, Enter(l, cl, a))
  {
    assert l.byGet + [] == l.byGet;
  }

  lemma AdmitQuiet(n: nat, maxSize: nat, cl: Client)
    requires ClientOk(n, maxSize, cl) && cl.pc.Admit?
    ensures Quiet(n, cl, Go1(n, cl))
    ensures var r := Go1(n, cl); r.pc.Put? || r.pc.PutFlush? ==> r.pc.op.Release? ==> !r.pc.batch
  {
  }

  /** The call in hand stays in hand, or is in the window. */
  lemma WritesQuiet(n: nat, cl: Client, r: Client)
    requires n > 0 && (cl.pc.Put? || cl.pc.PutFlush?) && (cl.pc.op.Release? ==> !cl.pc.batch)
    requires r.got == cl.got && r.rd == cl.rd && r.later == cl.later
    requires var s, op, batch := cl.pc.s, cl.pc.op, cl.pc.batch;
             if r.pc == AfterPut(s, op, batch) then |r.pending| == |cl.pending| + (if op.Release? then 0 else 1)
             else |r.pending| == |cl.pending| && (r.pc == Put(s, op, batch) || r.pc == PutFlush(s, op, batch))
    ensures Quiet(n, cl, r)
  {
  }

  lemma AppendQuiet(cl: Client, s: nat, op: Op)
    requires s < |cl.boxes| == |cl.credit|
    ensures var r := Append(cl, s, op);
            && r.got == cl.got && r.rd == cl.rd && r.later == cl.later
            && |r.pending| == |cl.pending| + (if op.Release? then 0 else 1)
  {
  }

  lemma FlushedQuiet(cl: Client, s: nat)
    requires s < |cl.boxes|
    ensures var r := Flushed(cl, s);
            r.got == cl.got && r.rd == cl.rd && r.later == cl.later && r.pending == cl.pending
  {
  }

  lemma PutQuiet(n: nat, cl: Client)
    requires n > 0 && n == |cl.boxes| == |cl.credit| && cl.rd <= |cl.got|
    requires (cl.pc.Put? || (cl.pc.PutFlush? && FlushReady(cl, cl.pc.s))) && cl.pc.s < n
    requires cl.pc.op.Release? ==> !cl.pc.batch
    ensures Quiet(n, cl, Go1(n, cl)) && !Go1(n, cl).pc.FlushAll?
    ensures var r := Go1(n, cl); r.pc.Put? || r.pc.PutFlush? ==> r.pc.op.Release? ==> !r.pc.batch
  {
    AppendQuiet(cl, cl.pc.s, cl.pc.op);
    FlushedQuiet(cl, cl.pc.s);
    WritesQuiet(n, cl, Go1(n, cl));
  }

  lemma WaitQuiet(n: nat, maxSize: nat, cl: Client)
    requires ClientOk(n, maxSize, cl) && Enabled(n, maxSize, cl, Go)
    requires (cl.pc.Read? && !CanTake(cl)) || cl.pc.ReadFlush? || cl.pc.ReadyFlush? || (cl.pc.FlushAll? && cl.pc.s < n)
    ensures Quiet(n, cl, Go1(n, cl)) && Handed(cl, Go) == []
    ensures var r := Go1(n, cl); !r.pc.Put? && !r.pc.PutFlush? && (cl.pc.FlushAll? <==> r.pc.FlushAll?)
  {
  }

  lemma TakeLedger(n: nat, cl: Client, l: Ledger)
    requires n > 0 && DataOk(n, cl) && LedgerOk(n, cl, l) && CanTake(cl)
    ensures var t := Take(cl);
            && t.pc == cl.pc && t.rd == cl.rd <= |t.got| && t.later == cl.later
            && t.got[t.rd..] == cl.got[cl.rd..] + Unread(cl) && LedgerOk(n, t, l)
  {
    var x := Unread(cl)[0];
    assert Take(cl).got == cl.got + [x];
    assert (cl.got + [x])[cl.rd..] == cl.got[cl.rd..] + [x];
    SumsTake(l, cl.later, cl.got[cl.rd..], cl.got, InBatch(cl.pc), x);
  }

  lemma SubmitLedger(n: nat, t: Client, l: Ledger, task: Task)
    requires n > 0 && LedgerOk(n, t, l) && task.Submit? && (t.pc == Read(task) || t.pc == ReadBlock(task))
    ensures LedgerOk(n, t.(pc := Admit(task.op, task.batch)), l)
  {
  }

  lemma DeliverLedger(n: nat, t: Client, l: Ledger)
    requires n > 0 && LedgerOk(n, t, l) && t.later == [] && t.rd + 1 == |t.got| && t.got[t.rd].0 < |t.boxes|
    requires t.pc == Read(Deliver) || t.pc == ReadBlock(Deliver)
    ensures LedgerOk(n, DeliverNext(t).(pc := Idle(false)), l.(byGet := l.byGet + [t.got[t.rd]]))
  {
    var x := t.got[t.rd];
    assert t.got[t.rd..] == [x] && t.got[t.rd + 1..] == [];
    assert [] + [x] == [x] + ([] + []);
    SumsGet(l, [], [x], t.got, x, [], []);
  }

  lemma FirstUnread(cl: Client)
    requires CanTake(cl) && cl.rd == |cl.got|
    ensures var t := Take(cl); |t.got| == t.rd + 1 && Unread(cl) == [t.got[t.rd]] && t.got[t.rd].0 < |t.boxes|
  {
  }

  lemma TakenLedger(n: nat, cl: Client, l: Ledger, task: Task)
    requires n > 0 && DataOk(n, cl) && LedgerOk(n, cl, l) && CanTake(cl)
    requires cl.pc == Read(task) || cl.pc == ReadBlock(task)
    requires task.Deliver? ==> cl.later == [] && cl.rd == |cl.got|
    ensures LedgerOk(n, AfterTake(Take(cl), task), l.(byGet := l.byGet + (if task.Deliver? then Unread(cl) else [])))
  {
    TakeLedger(n, cl, l);
    var t := Take(cl);
    if task.Deliver? {
      FirstUnread(cl);
      DeliverLedger(n, t, l);
    } else {
      assert l.byGet + [] == l.byGet;
      SubmitLedger(n, t, l, task);
    }
  }

  lemma ReadLedger(n: nat, maxSize: nat, cl: Client, l: Ledger, task: Task)
    requires ClientOk(n, maxSize, cl) && LedgerOk(n, cl, l) && CanTake(cl)
    requires cl.pc == Read(task) || cl.pc == ReadBlock(task)
    ensures LedgerOk(n, Go1(n, cl), Enter(l, cl, Go))
  {
    TakesTask(n, maxSize, cl, task);
    EnterRead(cl, l, task);
    TakenLedger(n, cl, l, task);
  }

  lemma EnterRead(cl: Client, l: Ledger, task: Task)
    requires cl.pc == Read(task) || cl.pc == ReadBlock(task)
    ensures Enter(l, cl, Go) == l.(byGet := l.byGet + (if task.Deliver? then Unread(cl) else []))
  {
  }

  lemma TakesTask(n: nat, maxSize: nat, cl: Client, task: Task)
    requires ClientOk(n, maxSize, cl) && CanTake(cl) && (cl.pc == Read(task) || cl.pc == ReadBlock(task))
    ensures DataOk(n, cl) && (task.Deliver? ==> cl.later == [] && cl.rd == |cl.got|)
    ensures Go1(n, cl) == AfterTake(Take(cl), task)
  {
  }

  lemma DrainLedger(n: nat, maxSize: nat, cl: Client, l: Ledger)
    requires ClientOk(n, maxSize, cl) && LedgerOk(n, cl, l) && cl.pc.Drain? && Enabled(n, maxSize, cl, Go)
    ensures LedgerOk(n, Go1(n, cl), Enter(l, cl, Go))
  {
    if cl.pending == [] {
      DeliverAllOk(n, cl);
      SumsDoall(l, cl.later, cl.got[cl.rd..], cl.got);
      assert cl.got[|cl.got|..] == [];
    } else {
      TakeLedger(n, cl, l);
      assert l.byDoall + [] == l.byDoall;
    }
  }

  lemma GoLedger(n: nat, maxSize: nat, cl: Client, l: Ledger)
    requires ClientOk(n, maxSize, cl) && Enabled(n, maxSize, cl, Go) && LedgerOk(n, cl, l)
    ensures LedgerOk(n, Go1(n, cl), Enter(l, cl, Go))
  {
    var r := Go1(n, cl);
    if cl.pc.Admit? {
      AdmitQuiet(n, maxSize, cl);
      QuietLedger(n, cl, Go, r, l);
    } else if cl.pc.Put? || cl.pc.PutFlush? {
      PutQuiet(n, cl);
      QuietLedger(n, cl, Go, r, l);
    } else if cl.pc.Drain? {
      DrainLedger(n, maxSize, cl, l);
    } else if (cl.pc.Read? || cl.pc.ReadBlock?) && CanTake(cl) {
      ReadLedger(n, maxSize, cl, l, cl.pc.task);
    } else if cl.pc == FlushAll(n) {
      assert l.byGet + [] == l.byGet;
    } else {
      WaitQuiet(n, maxSize, cl);
      QuietLedger(n, cl, Go, r, l);
    }
  }

  lemma LaterLedger(n: nat, cl: Client, l: Ledger)
    requires n > 0 && LedgerOk(n, cl, l) && cl.pc == Idle(false) && cl.later != [] && cl.later[0].0 < |cl.boxes|
    ensures LedgerOk(n, DeliverLater(cl), l.(byGet := l.byGet + cl.later[..1]))
  {
    var rest := cl.got[cl.rd..];
    assert cl.later[..1] == [cl.later[0]] && cl.later + rest == [cl.later[0]] + (cl.later[1..] + rest);
    SumsGet(l, cl.later, rest, cl.got, cl.later[0], cl.later[1..], rest);
  }

  lemma NextLedger(n: nat, cl: Client, l: Ledger)
    requires n > 0 && LedgerOk(n, cl, l) && cl.pc == Idle(false) && cl.later == []
    requires cl.rd < |cl.got| && cl.got[cl.rd].0 < |cl.boxes|
    ensures LedgerOk(n, DeliverNext(cl), l.(byGet := l.byGet + cl.got[cl.rd..cl.rd + 1]))
  {
    var rest := cl.got[cl.rd..];
    assert cl.got[cl.rd..cl.rd + 1] == [rest[0]] && rest[1..] == cl.got[cl.rd + 1..];
    assert [] + rest == [rest[0]] + ([] + rest[1..]);
    SumsGet(l, [], rest, cl.got, rest[0], [], rest[1..]);
  }

  lemma GetLedger(n: nat, cl: Client, l: Ledger)
    requires n > 0 && DataOk(n, cl) && LedgerOk(n, cl, l) && cl.pc == Idle(false)
    ensures LedgerOk(n, ClientStep(n, cl, Get), Enter(l, cl, Get))
  {
    if cl.later != [] {
      LaterLedger(n, cl, l);
    } else if cl.rd < |cl.got| {
      NextLedger(n, cl, l);
    } else {
      assert l.byGet + [] == l.byGet;
    }
  }

  lemma SetAsideLedger(n: nat, cl: Client, l: Ledger)
    requires n > 0 && DataOk(n, cl) && LedgerOk(n, cl, l) && cl.pc == Idle(false) && cl.pending == []
    ensures LedgerOk(n, ClientStep(n, cl, BeginBatch), Enter(l, cl, BeginBatch))
  {
    assert cl.got[|cl.got|..] == [] && l.byGet + [] == l.byGet;
    SumsSetAside(l, cl.later, cl.got[cl.rd..], cl.got);
  }

  lemma BeginLedger(n: nat, cl: Client, l: Ledger, op: Op)
    requires n > 0 && LedgerOk(n, cl, l) && cl.pc.Idle? && !op.Release? && n == |cl.boxes| == |cl.credit|
    ensures LedgerOk(n, ClientStep(n, cl, Begin(op)), Enter(l, cl, Begin(op)))
  {
    assert l.byGet + [] == l.byGet;
    SumsBegin(l, cl.later, cl.got[cl.rd..], cl.got, InBatch(cl.pc));
  }

  lemma StepLedger(n: nat, maxSize: nat, cl: Client, a: Act, l: Ledger)
    requires ClientOk(n, maxSize, cl) && Enabled(n, maxSize, cl, a) && LedgerOk(n, cl, l)
    ensures LedgerOk(n, ClientStep(n, cl, a), Enter(l, cl, a))
  {
    match a
    case Go => GoLedger(n, maxSize, cl, l);
    case Get => GetLedger(n, cl, l);
    case BeginBatch => SetAsideLedger(n, cl, l);
    case Begin(op) => BeginLedger(n, cl, l, op);
    case GiveBack(s, r) => assert l.byGet + [] == l.byGet;
    case EndBatch => assert l.byGet + [] == l.byGet;
  }

  lemma {:induction false} RunLedger(n: nat, nclients: nat, maxSize: nat, run: seq<State>, steps: seq<Step>, i: nat,
                                     c: nat)
    requires IsRun(n, nclients, maxSize, run, steps) && i < |run| && c < nclients
    ensures c < |run[i].clients| && LedgerOk(n, run[i].clients[c], LedgerOf(run, steps, i, c))
  {
    if i > 0 {
      RunLedger(n, nclients, maxSize, run, steps, i - 1, c);
      RunOk(n, nclients, maxSize, run, steps, i - 1);
      assert Linked(n, maxSize, run[i - 1], steps[i - 1], run[i - 1 + 1]);
      NextLedgerOf(n, maxSize, run[i - 1], steps[i - 1], run[i], c, LedgerOf(run, steps, i - 1, c));
    }
  }

  lemma NextLedgerOf(n: nat, maxSize: nat, st: State, step: Step, next: State, c: nat, l: Ledger)
    requires SystemOk(n, maxSize, st) && Linked(n, maxSize, st, step, next)
    requires c < |st.clients| && LedgerOk(n, st.clients[c], l)
    ensures c < |next.clients|
    ensures LedgerOk(n, next.clients[c],
                     if step.ClientMove? && step.c == c then Enter(l, st.clients[c], step.act) else l)
  {
    ClientAfter(n, maxSize, st, step, next, c);
    if step.ClientMove? && step.c == c { StepLedger(n, maxSize, st.clients[c], step.act, l); }
  }

  lemma {:induction false} AskedConcat(a: seq<(nat, Op)>, b: seq<(nat, Op)>)
    ensures Asked(a + b) == Asked(a) + Asked(b)
  {
    if b == [] {
      assert a + b == a && Asked([]) == [];
    } else {
      assert (a + b)[..|a + b| - 1] == a + b[..|b| - 1];
      AskedConcat(a, b[..|b| - 1]);
    }
  }

  lemma {:induction false} SelectPrefix<T>(xs: seq<T>, n: nat, modes: seq<bool>, b: bool)
    requires n <= |xs| <= |modes|
    ensures Select(xs[..n], modes, b) <= Select(xs, modes, b)
    ensures (forall k :: n <= k < |xs| ==> modes[k] != b) ==> Select(xs[..n], modes, b) == Select(xs, modes, b)
  {
    if n < |xs| {
      assert xs[..|xs| - 1][..n] == xs[..n];
      SelectPrefix(xs[..|xs| - 1], n, modes, b);
    } else {
      assert xs[..n] == xs;
    }
  }

  /** Two selections by the same modes pick the same positions. */
  lemma {:induction false} SelectAligned<T, U>(xs: seq<T>, ys: seq<U>, modes: seq<bool>, b: bool, k: nat)
      returns (j: nat)
    requires |xs| == |ys| <= |modes| && k < |Select(xs, modes, b)|
    ensures j < |xs| && modes[j] == b && k < |Select(ys, modes, b)| == |Select(xs, modes, b)|
    ensures Select(xs, modes, b)[k] == xs[j] && Select(ys, modes, b)[k] == ys[j]
  {
    var n := |xs| - 1;
    SameCount(xs, ys, modes, b);
    SameCount(xs[..n], ys[..n], modes, b);
    if k < |Select(xs[..n], modes, b)| { j := SelectAligned(xs[..n], ys[..n], modes, b, k); } else { j := n; }
  }

  lemma {:induction false} SameCount<T, U>(xs: seq<T>, ys: seq<U>, modes: seq<bool>, b: bool)
    requires |xs| == |ys| <= |modes|
    ensures |Select(xs, modes, b)| == |Select(ys, modes, b)|
  {
    if xs != [] { SameCount(xs[..|xs| - 1], ys[..|ys| - 1], modes, b); }
  }

  lemma InHandCount(n: nat, maxSize: nat, cl: Client)
    requires ClientOk(n, maxSize, cl)
    ensures |Asked(InHand(n, cl.pc))| == Admitted(cl.pc)
  {
    var hand := InHand(n, cl.pc);
    assert Asked([]) == [];
    if hand != [] {
      assert hand == [hand[0]];
      AskedOne(hand[0]);
    }
  }

  lemma ModesPerCall(n: nat, maxSize: nat, cl: Client, l: Ledger, called: seq<(nat, Op)>)
    requires ClientOk(n, maxSize, cl) && LedgerOk(n, cl, l) && cl.cmds + InHand(n, cl.pc) == called
    ensures |Asked(called)| == |l.modes| && |cl.got| <= |Asked(cl.cmds)| && Asked(cl.cmds) <= Asked(called)
  {
    AskedConcat(cl.cmds, InHand(n, cl.pc));
    InHandCount(n, maxSize, cl);
    assert |Tags(Asked(cl.cmds))| == |cl.got| + |cl.pending|;
  }

  ghost function Returned(l: Ledger, b: bool): seq<(nat, Answer)> {
    if b then l.byDoall else l.byGet
  }

  ghost predicate ReturnOk(n: nat, cl: Client, l: Ledger, called: seq<(nat, Op)>, b: bool, k: nat)
    requires |Asked(called)| == |l.modes| && k < |Returned(l, b)|
  {
    var wanted, (s, a) := Select(Asked(called), l.modes, b), Returned(l, b)[k];
    && k < |wanted| && wanted[k].0 == s < |cl.boxes|
    && Event(wanted[k].1, Some(a)) in cl.boxes[s].served
  }

  lemma ReturnMatches(n: nat, maxSize: nat, cl: Client, l: Ledger, called: seq<(nat, Op)>, b: bool, k: nat)
    requires ClientOk(n, maxSize, cl) && LedgerOk(n, cl, l) && cl.cmds + InHand(n, cl.pc) == called
    requires k < |Returned(l, b)|
    ensures |Asked(called)| == |l.modes| && ReturnOk(n, cl, l, called, b, k)
  {
    ModesPerCall(n, maxSize, cl, l, called);
    var asked := Asked(called);
    var first := asked[..|cl.got|];
    SelectPrefix(asked, |cl.got|, l.modes, b);
    assert Returned(l, b) <= Select(cl.got, l.modes, b);
    var j := SelectAligned(cl.got, first, l.modes, b, k);
    Matching(n, cl, j);
    assert first[j] == Asked(cl.cmds)[j];
  }

  lemma {:induction false} CalledServer(n: nat, steps: seq<Step>, c: nat)
    requires n > 0
    ensures forall x :: x in Asked(Called(n, steps, c)) ==> !x.1.Release? && x.0 == x.1.key % n
  {
    if steps != [] {
      CalledServer(n, steps[..|steps| - 1], c);
      CalledOne(n, steps[|steps| - 1], c);
      AskedConcat(Called(n, steps[..|steps| - 1], c), CallBy(n, steps[|steps| - 1], c));
    }
  }

  lemma CalledOne(n: nat, step: Step, c: nat)
    requires n > 0
    ensures forall x :: x in Asked(CallBy(n, step, c)) ==> !x.1.Release? && x.0 == x.1.key % n
  {
    assert Asked([]) == [];
    if step.ClientMove? {
      match step.act
      case Begin(op) => AskedOne(Addressed(n, op));
      case GiveBack(s, r) => AskedOne((s, Release(r)));
      case _ =>
    }
  }

  lemma {:induction false} SelectMember<T>(xs: seq<T>, modes: seq<bool>, b: bool, x: T)
    requires |xs| <= |modes| && x in Select(xs, modes, b)
    ensures x in xs
  {
    var n := |xs| - 1;
    if x != xs[n] { SelectMember(xs[..n], modes, b, x); }
  }

  /** What smp_get_next has returned to a client are, in order, the answers to the lookups
      and inserts it has called for outside smp_hash_doall; and what smp_hash_doall has
      returned, those inside (b).  Each is the answer of server key % n to that request. */
  lemma ReturnsInOrder(n: nat, nclients: nat, maxSize: nat, run: seq<State>, steps: seq<Step>, i: nat, c: nat,
                       b: bool, k: nat)
    requires IsRun(n, nclients, maxSize, run, steps) && i < |run| && c < nclients
    requires k < |Returned(LedgerOf(run, steps, i, c), b)|
    ensures var l, asked := LedgerOf(run, steps, i, c), Asked(Called(n, steps[..i], c));
            && |asked| == |l.modes| && k < |Select(asked, l.modes, b)| && c < |run[i].clients|
            && var (s, op) := Select(asked, l.modes, b)[k];
               && !op.Release? && Returned(l, b)[k].0 == s == op.key % n < |run[i].clients[c].boxes|
               && Event(op, Some(Returned(l, b)[k].1)) in run[i].clients[c].boxes[s].served
  {
    var l, called := LedgerOf(run, steps, i, c), Called(n, steps[..i], c);
    RunLedger(n, nclients, maxSize, run, steps, i, c);
    CallsAreWritten(n, nclients, maxSize, run, steps, i, c);
    RunOk(n, nclients, maxSize, run, steps, i);
    assert ClientOk(n, maxSize, run[i].clients[c]);
    ReturnMatches(n, maxSize, run[i].clients[c], l, called, b, k);
    CalledServer(n, steps[..i], c);
    SelectMember(Asked(called), l.modes, b, Select(Asked(called), l.modes, b)[k]);
  }

  /** Nothing is missing: when smp_hash_doall is over it has returned a value for each of
      its queries, and smp_get_next has returned all that has been read but what waits
      in the window. */
  lemma NothingMissing(n: nat, nclients: nat, maxSize: nat, run: seq<State>, steps: seq<Step>, i: nat, c: nat)
    requires IsRun(n, nclients, maxSize, run, steps) && i < |run| && c < nclients
    ensures c < |run[i].clients|
    ensures var l, asked, cl := LedgerOf(run, steps, i, c), Asked(Called(n, steps[..i], c)), run[i].clients[c];
            && |asked| == |l.modes| && cl.rd <= |cl.got|
            && (!l.open && cl.pc.Idle? ==>
                  && |l.byDoall| == |Select(asked, l.modes, true)|
                  && |l.byGet| + |cl.later| + (|cl.got| - cl.rd) + |cl.pending| == |Select(asked, l.modes, false)|)
  {
    RunLedger(n, nclients, maxSize, run, steps, i, c);
    var l, called, cl := LedgerOf(run, steps, i, c), Called(n, steps[..i], c), run[i].clients[c];
    CallsAreWritten(n, nclients, maxSize, run, steps, i, c);
    RunOk(n, nclients, maxSize, run, steps, i);
    assert ClientOk(n, maxSize, cl);
    ModesPerCall(n, maxSize, cl, l, called);
    if !l.open && cl.pc.Idle? { CountsMeet(n, cl, l, Asked(called)); }
  }

  lemma CountsMeet(n: nat, cl: Client, l: Ledger, asked: seq<(nat, Op)>)
    requires n > 0 && LedgerOk(n, cl, l) && !l.open && cl.pc.Idle? && |asked| == |l.modes|
    ensures |l.byDoall| == |Select(asked, l.modes, true)|
    ensures |l.byGet| + |cl.later| + (|cl.got| - cl.rd) + |cl.pending| == |Select(asked, l.modes, false)|
  {
    var first := asked[..|cl.got|];
    SelectPrefix(asked, |cl.got|, l.modes, true);
    SameCount(cl.got, first, l.modes, true);
    SameCount(cl.got, first, l.modes, false);
    SelectAll(asked, |cl.got|, l.modes, false);
  }

  lemma {:induction false} SelectAll<T>(xs: seq<T>, n: nat, modes: seq<bool>, b: bool)
    requires n <= |xs| <= |modes| && forall k :: n <= k < |xs| ==> modes[k] == b
    ensures |Select(xs, modes, b)| == |Select(xs[..n], modes, b)| + (|xs| - n)
  {
    if n < |xs| {
      assert xs[..|xs| - 1][..n] == xs[..n];
      SelectAll(xs[..|xs| - 1], n, modes, b);
    } else {
      assert xs[..n] == xs;
    }
  }

  /** smp_hash_lookup is refused if and only if 65536 requests have been called for and not
      returned, and smp_get_next if and only if none. */
  lemma RefusedIff(n: nat, nclients: nat, maxSize: nat, run: seq<State>, steps: seq<Step>, i: nat, c: nat, key: nat)
    requires IsRun(n, nclients, maxSize, run, steps) && i < |run| && c < |run[i].clients| == nclients
    requires run[i].clients[c].pc == Idle(false)
    ensures var l, asked := LedgerOf(run, steps, i, c), Asked(Called(n, steps[..i], c));
            && |asked| == |l.modes|
            && (Enabled(n, maxSize, run[i].clients[c], Begin(Lookup(key)))
                <==> |Select(asked, l.modes, false)| - |l.byGet| < 65536)
            && (Enabled(n, maxSize, run[i].clients[c], Get) <==> |Select(asked, l.modes, false)| > |l.byGet|)
  {
    NothingMissing(n, nclients, maxSize, run, steps, i, c);
    RunLedger(n, nclients, maxSize, run, steps, i, c);
  }

  /** A request is written to server key % n at once, but if 56 answers of that server are
      outstanding the client reads first. */
  lemma CreditLoopIff(n: nat, maxSize: nat, cl: Client)
    requires ClientOk(n, maxSize, cl) && cl.pc.Admit?
    ensures !cl.pc.op.Release? && |cl.boxes| == n
    ensures var s := cl.pc.op.key % n;
            Go1(n, cl).pc == (if Outstanding(cl.boxes[s]) >= 56 then Read(Submit(cl.pc.op, cl.pc.batch))
                              else Put(s, cl.pc.op, cl.pc.batch))
  {
    Conservation(n, cl, cl.pc.op.key % n);
  }

  /** Schedule independence in terms of the calls: with one client that is between calls, in
      whatever order the client and the servers took their steps, the values read are the
      first answers of the sequential table to the calls, each at server key % n; and once
      everything is served the partitions are those of that table. */
  lemma CallsAreSequential(n: nat, maxSize: nat, run: seq<State>, steps: seq<Step>, i: nat)
    requires IsRun(n, 1, maxSize, run, steps) && i < |run|
    requires |run[i].clients| == 1 && run[i].clients[0].pc.Idle?
    ensures |run[i].servers| == n
    ensures var cl, called := run[i].clients[0], Called(n, steps[..i], 0);
            && cl.got <= Serial.TableAnswers(Messages, n, maxSize, called)
            && |Serial.TableAnswers(Messages, n, maxSize, called)| == |cl.got| + |cl.pending|
            && (Serial.AllServed(cl) ==>
                  forall s :: 0 <= s < n ==>
                    run[i].servers[s].part == Serial.TableRun(Messages, n, maxSize, called)[s])
  {
    CallsAreWritten(n, 1, maxSize, run, steps, i, 0);
    assert InHand(n, run[i].clients[0].pc) == [];
    assert run[i].clients[0].cmds == Called(n, steps[..i], 0);
    Serial.ScheduleIndependence(n, maxSize, run, steps, i);
  }
}
