/** The bound on a client's window of unread requests, on every run. */
module Window {
  import opened Basics
  import opened Elements
  import opened System
  import opened Flow
  import opened Control
  import opened Routes
  import PendingWindow

  predicate InBatch(pc: Pc) {
    match pc
    case Idle(batch) => batch
    case Admit(_, batch) => batch
    case Put(_, op, batch) => batch && !op.Release?
    case PutFlush(_, op, batch) => batch && !op.Release?
    case Read(task) => task.Submit? && task.batch
    case ReadFlush(task) => task.Submit? && task.batch
    case ReadBlock(task) => task.Submit? && task.batch
    case ReadyFlush(_) => false
    case FlushAll(_) => true
    case Drain => true
  }

  /** A request that has passed the test of the window but is not in it yet. */
  function Admitted(pc: Pc): nat {
    match pc
    case Admit(_, _) => 1
    case Put(_, op, _) => if op.Release? then 0 else 1
    case PutFlush(_, op, _) => if op.Release? then 0 else 1
    case Read(task) => if task.Submit? then 1 else 0
    case ReadFlush(task) => if task.Submit? then 1 else 0
    case ReadBlock(task) => if task.Submit? then 1 else 0
    case _ => 0
  }

  ghost predicate Bounded(cl: Client) {
    && |cl.later| <= MAX_PENDING_SIZE
    && (!InBatch(cl.pc) ==> |cl.later| + |cl.got| + |cl.pending| + Admitted(cl.pc) <= cl.rd + MAX_PENDING_SIZE)
  }

  lemma GoBounded(n: nat, maxSize: nat, cl: Client)
    requires ClientOk(n, maxSize, cl) && Enabled(n, maxSize, cl, Go) && Bounded(cl)
    ensures Bounded(Go1(n, cl))
  {
    if cl.pc.Drain? && cl.pending == [] { DeliverAllOk(n, cl); }
  }

  lemma ClientBounded(n: nat, maxSize: nat, cl: Client, a: Act)
    requires ClientOk(n, maxSize, cl) && Enabled(n, maxSize, cl, a) && Bounded(cl)
    ensures Bounded(ClientStep(n, cl, a))
  {
    if a == Go {
      GoBounded(n, maxSize, cl);
    } else if a == Get {
      if cl.later != [] { DeliverLaterOk(n, cl); } else if cl.rd < |cl.got| { DeliverOk(n, cl); }
    }
  }

  lemma StepBounded(n: nat, maxSize: nat, st: State, step: Step, next: State, c: nat)
    requires SystemOk(n, maxSize, st) && Linked(n, maxSize, st, step, next)
    requires c < |st.clients| && Bounded(st.clients[c])
    ensures c < |next.clients| && Bounded(next.clients[c])
  {
    match step
    case ClientMove(d, a) => if d == c { ClientBounded(n, maxSize, st.clients[c], a); }
    case ServerMove(s) => ServerStepClients(n, st, s);
  }

  lemma {:induction false} RunBounded(n: nat, nclients: nat, maxSize: nat, run: seq<State>, steps: seq<Step>, i: nat,
                                      c: nat)
    requires IsRun(n, nclients, maxSize, run, steps) && i < |run| && c < nclients
    ensures c < |run[i].clients| && Bounded(run[i].clients[c])
  {
    if i > 0 {
      RunBounded(n, nclients, maxSize, run, steps, i - 1, c);
      RunOk(n, nclients, maxSize, run, steps, i - 1);
      assert Linked(n, maxSize, run[i - 1], steps[i - 1], run[i - 1 + 1]);
      StepBounded(n, maxSize, run[i - 1], steps[i - 1], run[i], c);
    }
  }

  /** rd <= wr <= pending <= rd + MAX_PENDING_SIZE on every run, whenever the client is
      not inside smp_hash_doall (which keeps its own values elsewhere), counting the values
      that were read before one and are still undelivered; so the slots of the two pending
      arrays in use are all different. */
  lemma WindowBound(n: nat, nclients: nat, maxSize: nat, run: seq<State>, steps: seq<Step>, i: nat, c: nat)
    requires IsRun(n, nclients, maxSize, run, steps) && i < |run| && c < nclients
    ensures c < |run[i].clients|
    ensures var cl := run[i].clients[c];
            && cl.rd <= |cl.got| <= |cl.got| + |cl.pending|
            && (!InBatch(cl.pc) ==> |cl.later| + |cl.got| + |cl.pending| <= cl.rd + MAX_PENDING_SIZE)
  {
    RunBounded(n, nclients, maxSize, run, steps, i, c);
    RunOk(n, nclients, maxSize, run, steps, i);
  }

  // The class PendingWindow.Pending takes answers from an oracle.  In a run of the whole
  // system the oracle is what the servers have computed.

  function Values(got: seq<(nat, Answer)>): seq<Answer> {
    seq(|got|, i requires 0 <= i < |got| => got[i].1)
  }

  /** The j-th answer of server s to the client, as far as there is one. */
  ghost function ReplyOf(cl: Client): (nat, nat) -> Answer {
    (s: nat, j: nat) =>
      if s < |cl.boxes| && j < |ValuesOf(cl.boxes[s].served)| then ValuesOf(cl.boxes[s].served)[j] else Null
  }

  lemma AnswersOfServers(n: nat, cl: Client)
    requires DataOk(n, cl)
    ensures PendingWindow.AnswersOk(Asked(cl.cmds), Values(cl.got), ReplyOf(cl))
  {
    var ops := Asked(cl.cmds);
    assert |Tags(ops)| == |cl.got| + |cl.pending|;
    forall i | 0 <= i < |cl.got| ensures Values(cl.got)[i] == ReplyOf(cl)(ops[i].0, PendingWindow.Rank(ops, i)) {
      Matching(n, cl, i);
      assert Tags(ops)[..i] == Tags(cl.got)[..i];
    }
  }

  lemma CreditsOfServers(n: nat, cl: Client, t: nat)
    requires DataOk(n, cl) && t < n
    ensures PendingWindow.CreditOk(Asked(cl.cmds), |cl.got|, t, cl.credit[t], |Route(cl.got, t)|,
                                   Queries(Route(cl.cmds, t)))
  {
    var ops := Asked(cl.cmds);
    assert |Tags(ops)| == |cl.got| + |cl.pending|;
    assert Tags(ops)[..|cl.got|] == Tags(cl.got);
    assert BoxOk(cl, t);
    RouteLength(cl.got, t);
    CountConcat(Tags(cl.got), cl.pending, t);
    RouteAsked(cl.cmds, t);
  }

  /** In every state of every run, what a client has asked, read and has credits for is a
      window in the sense of PendingWindow, with the answers the servers have computed. */
  lemma ClientsHaveWindows(n: nat, nclients: nat, maxSize: nat, run: seq<State>, steps: seq<Step>, i: nat, c: nat)
    requires IsRun(n, nclients, maxSize, run, steps) && i < |run| && c < |run[i].clients|
    ensures n == |run[i].clients[c].credit|
    ensures var cl := run[i].clients[c];
            && PendingWindow.AnswersOk(Asked(cl.cmds), Values(cl.got), ReplyOf(cl))
            && forall t :: 0 <= t < n ==>
                 PendingWindow.CreditOk(Asked(cl.cmds), |cl.got|, t, cl.credit[t], |Route(cl.got, t)|,
                                        Queries(Route(cl.cmds, t)))
  {
    RunOk(n, nclients, maxSize, run, steps, i);
    var cl := run[i].clients[c];
    assert ClientOk(n, maxSize, cl);
    AnswersOfServers(n, cl);
    forall t | 0 <= t < n
      ensures PendingWindow.CreditOk(Asked(cl.cmds), |cl.got|, t, cl.credit[t], |Route(cl.got, t)|,
                                     Queries(Route(cl.cmds, t)))
    {
      CreditsOfServers(n, cl, t);
    }
  }
}
