/** The invariant of the whole message-passing system and what follows from it on
    every run: conservation of credits, the bound that protects the output ring,
    and the matching of answers to requests. */
module Control {
  import opened Basics
  import opened Elements
  import opened Routes
  import opened System
  import opened Flow

  ghost predicate QueryOk(maxSize: nat, op: Op) {
    !op.Release? && (op.Insert? ==> op.size < INT_LIMIT && RoundedSize(op.size) <= maxSize)
  }

  ghost predicate PutOk(n: nat, maxSize: nat, cl: Client, s: nat, op: Op)
    requires n > 0 && n == |cl.boxes| == |cl.credit|
  {
    && s < n
    && (if op.Release? then op.ref.Ref? && op.ref in cl.boxes[s].held
        else QueryOk(maxSize, op) && s == ServerOf(op.key, n) && cl.credit[s] < MAX_PENDING_PER_SERVER)
  }

  ghost predicate TaskOk(n: nat, maxSize: nat, cl: Client, task: Task) {
    match task
    case Submit(op, _) => QueryOk(maxSize, op)
    case Deliver => cl.later == [] && cl.rd == |cl.got|
  }

  ghost predicate FlushedUpTo(cl: Client, k: nat) {
    k <= |cl.boxes| && forall s :: 0 <= s < k ==> cl.boxes[s].local == []
  }

  ghost predicate PcOk(n: nat, maxSize: nat, cl: Client)
    requires n > 0 && DataOk(n, cl)
  {
    match cl.pc
    case Idle(_) => true
    case Admit(op, _) => QueryOk(maxSize, op)
    case Put(s, op, _) => PutOk(n, maxSize, cl, s, op)
    case PutFlush(s, op, _) => PutOk(n, maxSize, cl, s, op) && WordsOf(cl.boxes[s].local) + Words(op) > INPB_SIZE
    case Read(task) => cl.pending != [] && TaskOk(n, maxSize, cl, task)
    case ReadFlush(task) => cl.pending != [] && TaskOk(n, maxSize, cl, task)
    case ReadBlock(task) => cl.pending != [] && TaskOk(n, maxSize, cl, task) && cl.boxes[cl.pending[0]].local == []
    case ReadyFlush(s) => s < n
    case FlushAll(s) => s <= n && FlushedUpTo(cl, s)
    case Drain => FlushedUpTo(cl, n)
  }

  /** Everything written went to the server of its key, and every insert fits. */
  ghost predicate CmdsOk(n: nat, maxSize: nat, cl: Client)
    requires n > 0
  {
    forall i :: 0 <= i < |cl.cmds| ==>
      var (s, op) := cl.cmds[i];
      if op.Release? then op.ref.Ref? else QueryOk(maxSize, op) && s == ServerOf(op.key, n)
  }

  ghost predicate ClientOk(n: nat, maxSize: nat, cl: Client) {
    n > 0 && DataOk(n, cl) && CmdsOk(n, maxSize, cl) && PcOk(n, maxSize, cl)
  }

  /** Only the box a server is serving has requests in hand or answers to push. */
  ghost predicate ServerOk(st: State, s: nat)
    requires s < |st.servers|
    requires forall c :: 0 <= c < |st.clients| ==> s < |st.clients[c].boxes|
  {
    forall c :: 0 <= c < |st.clients| && !(st.servers[s].serving && st.servers[s].cursor == c) ==>
      st.clients[c].boxes[s].hand == [] && st.clients[c].boxes[s].replies == []
  }

  ghost predicate SystemOk(n: nat, maxSize: nat, st: State) {
    && Shape(n, st)
    && (forall c :: 0 <= c < |st.clients| ==> ClientOk(n, maxSize, st.clients[c]))
    && (forall s :: 0 <= s < n ==> ServerOk(st, s))
  }

  lemma CreditPositive(n: nat, cl: Client)
    requires DataOk(n, cl) && cl.pending != []
    ensures cl.pending[0] < n && cl.credit[cl.pending[0]] > 0
  {
    assert BoxOk(cl, cl.pending[0]);
    CountHead(cl.pending, cl.pending[0]);
  }

  lemma PendingNonEmpty(n: nat, cl: Client, s: nat)
    requires DataOk(n, cl) && s < n && cl.credit[s] > 0
    ensures cl.pending != []
  {
    assert BoxOk(cl, s);
  }

  lemma PcOnly(n: nat, cl: Client, pc: Pc)
    requires DataOk(n, cl)
    ensures DataOk(n, cl.(pc := pc))
  {
    forall t | 0 <= t < n ensures BoxOk(cl.(pc := pc), t) { assert BoxOk(cl, t); }
  }

  lemma PutStepOk(n: nat, maxSize: nat, cl: Client)
    requires ClientOk(n, maxSize, cl) && (cl.pc.Put? || cl.pc.PutFlush?) && Enabled(n, maxSize, cl, Go)
    ensures ClientOk(n, maxSize, Go1(n, cl))
  {
    var s, op := cl.pc.s, cl.pc.op;
    var pc := Go1(n, cl).pc;
    if cl.pc.PutFlush? {
      FlushedOk(n, cl, s);
      PcOnly(n, Flushed(cl, s), pc);
    } else if WordsOf(cl.boxes[s].local) + Words(op) <= INPB_SIZE {
      AppendOk(n, cl, s, op);
      PcOnly(n, Append(cl, s, op), pc);
    } else {
      PcOnly(n, cl, pc);
    }
  }

  lemma AfterTakeOk(n: nat, maxSize: nat, cl: Client, task: Task)
    requires n > 0 && DataOk(n, cl) && CmdsOk(n, maxSize, cl) && TaskOk(n, maxSize, cl.(rd := |cl.got|), task)
    requires task.Deliver? ==> cl.rd + 1 == |cl.got|
    ensures ClientOk(n, maxSize, AfterTake(cl, task))
  {
    if task.Deliver? {
      DeliverOk(n, cl);
      PcOnly(n, DeliverNext(cl), Idle(false));
    } else {
      PcOnly(n, cl, Admit(task.op, task.batch));
    }
  }

  lemma ReadStepOk(n: nat, maxSize: nat, cl: Client)
    requires ClientOk(n, maxSize, cl) && (cl.pc.Read? || cl.pc.ReadFlush? || cl.pc.ReadBlock?)
             && Enabled(n, maxSize, cl, Go)
    ensures ClientOk(n, maxSize, Go1(n, cl))
  {
    CreditPositive(n, cl);
    var s := cl.pending[0];
    if cl.pc.ReadFlush? {
      FlushedOk(n, cl, s);
      PcOnly(n, Flushed(cl, s), ReadBlock(cl.pc.task));
    } else if CanTake(cl) {
      TakeOk(n, cl);
      AfterTakeOk(n, maxSize, Take(cl), cl.pc.task);
    } else {
      PcOnly(n, cl, ReadFlush(cl.pc.task));
    }
  }

  lemma FlushStepOk(n: nat, maxSize: nat, cl: Client)
    requires ClientOk(n, maxSize, cl) && (cl.pc.ReadyFlush? || cl.pc.FlushAll?) && Enabled(n, maxSize, cl, Go)
    ensures ClientOk(n, maxSize, Go1(n, cl))
  {
    var s := cl.pc.s;
    if cl.pc.FlushAll? && s == n {
      PcOnly(n, cl, Drain);
    } else {
      FlushedOk(n, cl, s);
      PcOnly(n, Flushed(cl, s), if cl.pc.ReadyFlush? then Idle(false) else FlushAll(s + 1));
    }
  }

  lemma DrainStepOk(n: nat, maxSize: nat, cl: Client)
    requires ClientOk(n, maxSize, cl) && cl.pc.Drain? && Enabled(n, maxSize, cl, Go)
    ensures ClientOk(n, maxSize, Go1(n, cl))
  {
    if cl.pending == [] {
      DeliverAllOk(n, cl);
      PcOnly(n, DeliverAll(cl), Idle(false));
    } else {
      TakeOk(n, cl);
    }
  }

  lemma ClientStepOk(n: nat, maxSize: nat, cl: Client, a: Act)
    requires ClientOk(n, maxSize, cl) && Enabled(n, maxSize, cl, a)
    ensures ClientOk(n, maxSize, ClientStep(n, cl, a))
  {
    match a
    case Begin(op) => PcOnly(n, cl, Admit(op, cl.pc.batch));
    case Get =>
      if cl.later != [] {
        DeliverLaterOk(n, cl);
      } else if cl.rd < |cl.got| {
        DeliverOk(n, cl);
      } else {
        PcOnly(n, cl, Read(Deliver));
      }
    case GiveBack(s, r) => PcOnly(n, cl, Put(s, Release(r), false));
    case BeginBatch =>
      SetAsideOk(n, cl);
      PcOnly(n, SetAside(cl), Idle(true));
    case EndBatch => PcOnly(n, cl, FlushAll(0));
    case Go =>
      match cl.pc {
        case Idle(_) =>
        case Admit(op, batch) =>
          var s := ServerOf(op.key, n);
          if cl.credit[s] >= MAX_PENDING_PER_SERVER {
            PendingNonEmpty(n, cl, s);
            PcOnly(n, cl, Read(Submit(op, batch)));
          } else {
            PcOnly(n, cl, Put(s, op, batch));
          }
        case Put(_, _, _) => PutStepOk(n, maxSize, cl);
        case PutFlush(_, _, _) => PutStepOk(n, maxSize, cl);
        case Read(_) => ReadStepOk(n, maxSize, cl);
        case ReadFlush(_) => ReadStepOk(n, maxSize, cl);
        case ReadBlock(_) => ReadStepOk(n, maxSize, cl);
        case ReadyFlush(_) => FlushStepOk(n, maxSize, cl);
        case FlushAll(_) => FlushStepOk(n, maxSize, cl);
        case Drain => DrainStepOk(n, maxSize, cl);
      }
  }

  /** A client step leaves alone what belongs to the servers. */
  ghost predicate ServerSideSame(a: Client, b: Client) {
    |a.boxes| == |b.boxes| && forall t :: 0 <= t < |a.boxes| ==>
      a.boxes[t].hand == b.boxes[t].hand && a.boxes[t].replies == b.boxes[t].replies
        && a.boxes[t].served == b.boxes[t].served
  }

  lemma TakeSame(n: nat, cl: Client, task: Task)
    requires DataOk(n, cl) && CanTake(cl)
    ensures ServerSideSame(cl, Take(cl)) && ServerSideSame(cl, AfterTake(Take(cl), task))
  {
    var t := Take(cl);
    assert ServerSideSame(cl, t);
    if task.Deliver? && t.rd < |t.got| {
      TakeOk(n, cl);
      DeliverOk(n, t);
    }
  }

  lemma FlushedSame(cl: Client, s: nat)
    requires s < |cl.boxes|
    ensures ServerSideSame(cl, Flushed(cl, s))
  {
  }

  lemma AppendSame(cl: Client, s: nat, op: Op)
    requires s < |cl.boxes| == |cl.credit|
    ensures ServerSideSame(cl, Append(cl, s, op))
  {
  }

  lemma WriteSame(n: nat, cl: Client)
    requires n > 0 && DataOk(n, cl)
    requires cl.pc.Put? || cl.pc.PutFlush? || cl.pc.ReadFlush? || cl.pc.ReadyFlush? || cl.pc.FlushAll?
    ensures ServerSideSame(cl, Go1(n, cl))
  {
    var s := if cl.pc.ReadFlush? then (if cl.pending != [] then cl.pending[0] else n) else cl.pc.s;
    if s < n {
      FlushedSame(cl, s);
      if cl.pc.Put? { AppendSame(cl, s, cl.pc.op); }
    }
    assert Go1(n, cl).boxes == cl.boxes || (s < n && Go1(n, cl).boxes == Flushed(cl, s).boxes)
        || (s < n && cl.pc.Put? && Go1(n, cl).boxes == Append(cl, s, cl.pc.op).boxes);
  }

  lemma GoSame(n: nat, cl: Client)
    requires n > 0 && DataOk(n, cl)
    ensures ServerSideSame(cl, Go1(n, cl))
  {
    match cl.pc
    case Idle(_) =>
    case Admit(_, _) =>
    case Read(task) => if CanTake(cl) { TakeSame(n, cl, task); }
    case ReadBlock(task) => if CanTake(cl) { TakeSame(n, cl, task); }
    case Drain => if cl.pending == [] { DeliverAllOk(n, cl); } else if CanTake(cl) { TakeSame(n, cl, Deliver); }
    case _ => WriteSame(n, cl);
  }

  lemma ClientStepBoxes(n: nat, cl: Client, a: Act)
    requires n > 0 && DataOk(n, cl)
    ensures ServerSideSame(cl, ClientStep(n, cl, a))
  {
    if a == Go {
      GoSame(n, cl);
    } else if a == Get {
      if cl.later != [] { DeliverLaterOk(n, cl); } else if cl.rd < |cl.got| { DeliverOk(n, cl); }
    }
  }

  // Server steps.

  lemma BoxChangeOk(n: nat, maxSize: nat, cl: Client, s: nat, b: Box)
    requires ClientOk(n, maxSize, cl) && s < n && DataOk(n, SetBox(cl, s, b))
    requires b.local == cl.boxes[s].local && b.held == cl.boxes[s].held
    ensures ClientOk(n, maxSize, SetBox(cl, s, b))
  {
  }

  lemma ExecAnswers(p: Part, op: Op)
    ensures Exec(Messages, p, op).1.None? <==> op.Release?
  {
  }

  /** The box a server works on, after its step. */
  function ServedBox(sv: Server, b: Box): Box {
    if !sv.serving then (if b.ring == [] then b else Poll(b))
    else if b.hand != [] then Serve(b, Exec(Messages, sv.part, b.hand[0]).1)
    else Push(b)
  }

  lemma ServedBoxOk(n: nat, maxSize: nat, cl: Client, sv: Server, s: nat)
    requires ClientOk(n, maxSize, cl) && s < n && (!sv.serving ==> cl.boxes[s].hand == [])
    ensures ClientOk(n, maxSize, SetBox(cl, s, ServedBox(sv, cl.boxes[s])))
  {
    var b := cl.boxes[s];
    assert SetBox(cl, s, b) == cl;
    if !sv.serving {
      if b.ring != [] { PollOk(n, cl, s); }
    } else if b.hand != [] {
      ExecAnswers(sv.part, b.hand[0]);
      ServeOk(n, cl, s, Exec(Messages, sv.part, b.hand[0]).1);
    } else {
      PushOk(n, cl, s);
    }
    BoxChangeOk(n, maxSize, cl, s, ServedBox(sv, b));
  }

  lemma ServerStepClients(n: nat, st: State, s: nat)
    requires Shape(n, st) && s < n
    ensures var c := st.servers[s].cursor;
            ServerStep(n, st, s).clients
              == st.clients[c := SetBox(st.clients[c], s, ServedBox(st.servers[s], st.clients[c].boxes[s]))]
    ensures forall t :: 0 <= t < n && t != s ==> ServerStep(n, st, s).servers[t] == st.servers[t]
    ensures Shape(n, ServerStep(n, st, s))
  {
    var c := st.servers[s].cursor;
    assert SetBox(st.clients[c], s, st.clients[c].boxes[s]) == st.clients[c];
  }

  lemma ServerStepOk(n: nat, maxSize: nat, st: State, s: nat)
    requires SystemOk(n, maxSize, st) && s < n
    ensures SystemOk(n, maxSize, ServerStep(n, st, s))
  {
    var c := st.servers[s].cursor;
    assert ServerOk(st, s);
    ServedBoxOk(n, maxSize, st.clients[c], st.servers[s], s);
    ServerStepClients(n, st, s);
    var r := ServerStep(n, st, s);
    forall t | 0 <= t < n ensures ServerOk(r, t) { assert ServerOk(st, t); }
  }

  lemma StepOk(n: nat, maxSize: nat, st: State, step: Step)
    requires SystemOk(n, maxSize, st) && CanStep(n, maxSize, st, step)
    ensures SystemOk(n, maxSize, Apply(n, st, step))
  {
    match step
    case ServerMove(s) => ServerStepOk(n, maxSize, st, s);
    case ClientMove(c, a) =>
      ClientStepOk(n, maxSize, st.clients[c], a);
      ClientStepBoxes(n, st.clients[c], a);
      var r := Apply(n, st, step);
      forall t | 0 <= t < n ensures ServerOk(r, t) { assert ServerOk(st, t); }
  }

  lemma ZeroCredit(n: nat, cl: Client, s: nat)
    requires s < n == |cl.boxes| == |cl.credit| && cl.boxes[s] == EmptyBox() && cl.credit[s] == 0
    requires cl.pending == [] && cl.got == [] && cl.later == [] && cl.cmds == []
    ensures BoxOk(cl, s)
  {
    assert OpsOf([]) == [] && ValuesOf([]) == [] && Flat<Op>([]) == [];
    assert Route(cl.cmds, s) == [] && Route(cl.got, s) == [];
  }

  lemma StartOk(n: nat, nclients: nat, maxSize: nat)
    requires n > 0 && nclients > 0
    ensures SystemOk(n, maxSize, Start(n, nclients, maxSize))
  {
    var st := Start(n, nclients, maxSize);
    forall c | 0 <= c < nclients ensures ClientOk(n, maxSize, st.clients[c]) {
      forall s | 0 <= s < n ensures BoxOk(st.clients[c], s) { ZeroCredit(n, st.clients[c], s); }
    }
  }

  lemma {:induction false} RunOk(n: nat, nclients: nat, maxSize: nat, run: seq<State>, steps: seq<Step>, i: nat)
    requires IsRun(n, nclients, maxSize, run, steps) && i < |run|
    ensures SystemOk(n, maxSize, run[i])
  {
    if i == 0 {
      StartOk(n, nclients, maxSize);
    } else {
      RunOk(n, nclients, maxSize, run, steps, i - 1);
      assert Linked(n, maxSize, run[i - 1], steps[i - 1], run[i - 1 + 1]);
      StepOk(n, maxSize, run[i - 1], steps[i - 1]);
    }
  }

  // Consequences on every run.

  lemma {:induction false} QueriesConcat(a: seq<Op>, b: seq<Op>)
    ensures Queries(a + b) == Queries(a) + Queries(b)
  {
    if b == [] {
      assert a + b == a;
    } else {
      assert (a + b)[..|a + b| - 1] == a + b[..|b| - 1];
      QueriesConcat(a, b[..|b| - 1]);
    }
  }

  lemma {:induction false} RouteAsked(cmds: seq<(nat, Op)>, s: nat)
    ensures Route(Asked(cmds), s) == Queries(Route(cmds, s))
  {
    if cmds != [] {
      var init, last := cmds[..|cmds| - 1], cmds[|cmds| - 1];
      RouteAsked(init, s);
      if !last.1.Release? { RouteSnoc(Asked(init), last, s); } else { assert Asked(cmds) == Asked(init); }
      if last.0 == s {
        var r := Route(init, s);
        assert (r + [last.1])[..|r + [last.1]| - 1] == r;
      } else {
        assert Route(cmds, s) == Route(init, s);
      }
    }
  }

  lemma {:induction false} OneAnswerPerQuery(es: seq<Event>)
    requires forall i :: 0 <= i < |es| ==> (es[i].answer.None? <==> es[i].op.Release?)
    ensures |ValuesOf(es)| == |Queries(OpsOf(es))|
    ensures forall k :: 0 <= k < |ValuesOf(es)| ==> Event(Queries(OpsOf(es))[k], Some(ValuesOf(es)[k])) in es
  {
    if es != [] {
      var init, last := es[..|es| - 1], es[|es| - 1];
      OneAnswerPerQuery(init);
      assert OpsOf(es)[..|OpsOf(es)| - 1] == OpsOf(init);
      assert es == init + [last];
    }
  }

  /** The requests for server s that wait somewhere between the client's buffer and its
      reading of the answer. */
  ghost function Outstanding(b: Box): nat {
    |Queries(b.local)| + |Queries(Flat(b.ring))| + |Queries(b.hand)| + |b.replies| + |b.out|
  }

  lemma Conservation(n: nat, cl: Client, s: nat)
    requires DataOk(n, cl) && s < n
    ensures cl.credit[s] == Count(cl.pending, s) == Outstanding(cl.boxes[s]) <= MAX_PENDING_PER_SERVER
  {
    var b := cl.boxes[s];
    assert BoxOk(cl, s);
    var o := OpsOf(b.served);
    QueriesConcat(o + b.hand + Flat(b.ring), b.local);
    QueriesConcat(o + b.hand, Flat(b.ring));
    QueriesConcat(o, b.hand);
    OneAnswerPerQuery(b.served);
    RouteAsked(cl.cmds, s);
    RouteLength(Asked(cl.cmds), s);
    RouteLength(cl.got, s);
    CountConcat(Tags(cl.got), cl.pending, s);
  }

  /** Credit conservation: on every run, at every state, pending_count[s] is the number
      of the client's requests for s that are buffered, published, in the server's hands
      or answered and unread, and the number of unread entries for s in the pending
      window.  It never passes MAX_PENDING_PER_SERVER, so a server that pushes its
      answers without checking never overwrites an unread word of the output ring. */
  lemma CreditConservation(n: nat, nclients: nat, maxSize: nat, run: seq<State>, steps: seq<Step>, i: nat, c: nat,
                           s: nat)
    requires IsRun(n, nclients, maxSize, run, steps) && i < |run| && c < |run[i].clients| && s < n
    ensures n == |run[i].clients[c].credit| == |run[i].clients[c].boxes|
    ensures var cl := run[i].clients[c];
            && cl.credit[s] == Count(cl.pending, s) == Outstanding(cl.boxes[s]) <= MAX_PENDING_PER_SERVER
            && |cl.boxes[s].out| + |cl.boxes[s].replies| <= OUTB_SIZE
  {
    RunOk(n, nclients, maxSize, run, steps, i);
    assert ClientOk(n, maxSize, run[i].clients[c]);
    Conservation(n, run[i].clients[c], s);
  }

  lemma RoutePrefixAt(got: seq<(nat, Answer)>, cmds: seq<(nat, Op)>, pending: seq<nat>, k: nat)
    requires k < |got| && Tags(Asked(cmds)) == Tags(got) + pending
    ensures k < |Asked(cmds)| && Asked(cmds)[k].0 == got[k].0
    ensures var s, r := got[k].0, Count(Tags(got)[..k], got[k].0);
            && r < |Route(got, s)| && Route(got, s)[r] == got[k].1
            && r < |Queries(Route(cmds, s))| && Queries(Route(cmds, s))[r] == Asked(cmds)[k].1
  {
    var q := Asked(cmds);
    RouteAt(got, k);
    assert Tags(q)[k] == Tags(got)[k];
    RouteAt(q, k);
    RouteAsked(cmds, got[k].0);
    assert Tags(q)[..k] == Tags(got)[..k];
  }

  lemma FrontQueries(o: seq<Op>, h: seq<Op>, f: seq<Op>, l: seq<Op>, r: nat)
    requires r < |Queries(o)|
    ensures r < |Queries(o + h + f + l)| && Queries(o + h + f + l)[r] == Queries(o)[r]
  {
    assert o + h + f + l == o + (h + f + l);
    QueriesConcat(o, h + f + l);
  }

  lemma Matching(n: nat, cl: Client, k: nat)
    requires DataOk(n, cl) && k < |cl.got|
    ensures k < |Asked(cl.cmds)|
    ensures var (s, a) := cl.got[k];
            var r := Count(Tags(cl.got)[..k], s);
            && Asked(cl.cmds)[k].0 == s < |cl.boxes|
            && var served := cl.boxes[s].served;
               && r < |ValuesOf(served)| == |Queries(OpsOf(served))|
               && ValuesOf(served)[r] == a
               && Queries(OpsOf(served))[r] == Asked(cl.cmds)[k].1
               && Event(Asked(cl.cmds)[k].1, Some(a)) in served
  {
    var (s, a) := cl.got[k];
    var b := cl.boxes[s];
    assert BoxOk(cl, s);
    RoutePrefixAt(cl.got, cl.cmds, cl.pending, k);
    OneAnswerPerQuery(b.served);
    assert Route(cl.got, s) <= ValuesOf(b.served);
    FrontQueries(OpsOf(b.served), b.hand, Flat(b.ring), b.local, Count(Tags(cl.got)[..k], s));
  }

  /** Answer matching: the k-th value a client reads is the answer the owning server
      computed for the k-th request the client had accepted.  With r earlier requests for
      the same server, it is the answer to the r-th request that server served for it. */
  lemma AnswerMatching(n: nat, nclients: nat, maxSize: nat, run: seq<State>, steps: seq<Step>, i: nat, c: nat, k: nat)
    requires IsRun(n, nclients, maxSize, run, steps) && i < |run| && c < |run[i].clients|
    requires k < |run[i].clients[c].got|
    ensures var cl := run[i].clients[c];
            && k < |Asked(cl.cmds)|
            && var (s, a) := cl.got[k];
               var r := Count(Tags(cl.got)[..k], s);
               && Asked(cl.cmds)[k].0 == s < |cl.boxes|
               && var served := cl.boxes[s].served;
                  && r < |ValuesOf(served)| == |Queries(OpsOf(served))|
                  && ValuesOf(served)[r] == a
                  && Queries(OpsOf(served))[r] == Asked(cl.cmds)[k].1
                  && Event(Asked(cl.cmds)[k].1, Some(a)) in served
  {
    RunOk(n, nclients, maxSize, run, steps, i);
    assert ClientOk(n, maxSize, run[i].clients[c]);
    Matching(n, run[i].clients[c], k);
  }
}
