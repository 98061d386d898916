/** Safety of elements over whole runs of the message-passing system. */
module Safety {
  import opened Basics
  import Lru
  import opened Elements
  import opened Lifetime
  import opened Routes
  import opened System
  import opened Flow
  import Control
  import opened References

  function LogOps(log: seq<(nat, Event)>): seq<Op> {
    if log == [] then [] else LogOps(log[..|log| - 1]) + [log[|log| - 1].1.op]
  }

  function LogAnswers(log: seq<(nat, Event)>): seq<Option<Answer>> {
    if log == [] then [] else LogAnswers(log[..|log| - 1]) + [log[|log| - 1].1.answer]
  }

  /** A partition p is the sequential run of the requests in its log, in that order, each
      with the answer that run gives; T is what that run leaves referenced outside. */
  ghost predicate LogOk(maxSize: nat, p: Part, log: seq<(nat, Event)>, T: multiset<Answer>) {
    var ops, p0 := LogOps(log), Empty(maxSize);
    && Disciplined(Messages, p0, ops)
    && p == Run(Messages, p0, ops)
    && LogAnswers(log) == Answers(Messages, p0, ops)
    && T == RunRefs(Messages, p0, ops)
  }

  /** Server s has such a log, restricted to one client it is that client's own order, and
      the reply words the clients account for are the references left outside. */
  ghost predicate TableOk(n: nat, maxSize: nat, st: State, s: nat)
    requires Shape(n, st) && s < n
  {
    LogOk(maxSize, st.servers[s].part, st.servers[s].log, Sum(st.clients, s)) && Routed(n, st, s)
  }

  /** The log of a server restricted to a client is what that client has had served. */
  ghost predicate Routed(n: nat, st: State, s: nat)
    requires Shape(n, st) && s < n
  {
    && (forall i :: 0 <= i < |st.servers[s].log| ==> st.servers[s].log[i].0 < |st.clients|)
    && (forall c :: 0 <= c < |st.clients| ==> Route(st.servers[s].log, c) == st.clients[c].boxes[s].served)
  }

  ghost predicate KeysRouted(n: nat, p: Part, s: nat)
    requires n > 0
  {
    forall id :: id in p.elems ==> ServerOf(p.elems[id].key, n) == s
  }

  ghost predicate SafeState(n: nat, maxSize: nat, st: State) {
    && Control.SystemOk(n, maxSize, st)
    && (forall s :: 0 <= s < n ==> TableOk(n, maxSize, st, s) && KeysRouted(n, st.servers[s].part, s))
  }

  /** The request a server is about to serve is permitted. */
  lemma HandPermitted(n: nat, maxSize: nat, cl: Client, s: nat)
    requires Control.ClientOk(n, maxSize, cl) && s < n && cl.boxes[s].hand != []
    ensures HandOk(n, maxSize, cl.boxes[s].hand[0], s)
  {
    var b := cl.boxes[s];
    var op := b.hand[0];
    assert BoxOk(cl, s);
    var q := OpsOf(b.served) + b.hand + Flat(b.ring) + b.local;
    assert q[|OpsOf(b.served)|] == op;
    RouteMember(cl.cmds, s, op);
  }

  lemma ExecKeys(n: nat, p: Part, T: multiset<Answer>, op: Op, s: nat)
    requires n > 0 && PartOk(Messages, p, T) && Permitted(p, T, op) && KeysRouted(n, p, s)
    requires !op.Release? ==> ServerOf(op.key, n) == s
    ensures KeysRouted(n, Exec(Messages, p, op).0, s)
  {
    match op
    case Lookup(key) =>
      if Lru.Find(p.lru, key) < |p.lru| { ReadyInTable(Messages, p, T, Lru.Find(p.lru, key)); }
    case Insert(key, size) =>
      MakeRoomKeys(n, DropOld(Messages, p, key), p.maxSize - RoundedSize(size), s);
    case Release(r) =>
  }

  lemma {:induction false} MakeRoomKeys(n: nat, p: Part, room: nat, s: nat)
    requires n > 0 && KeysRouted(n, p, s)
    ensures KeysRouted(n, MakeRoom(Messages, p, room), s)
    decreases |p.lru|
  {
    if Lru.Total(p.lru) > room { MakeRoomKeys(n, Remove(Messages, p, |p.lru| - 1), room, s); }
  }

  lemma LogSnoc(log: seq<(nat, Event)>, x: (nat, Event))
    ensures LogOps(log + [x]) == LogOps(log) + [x.1.op]
    ensures LogAnswers(log + [x]) == LogAnswers(log) + [x.1.answer]
  {
    assert (log + [x])[..|log + [x]| - 1] == log;
  }

  /** One more permitted request at the end of a disciplined run. */
  lemma RunSnoc(maxSize: nat, ops: seq<Op>, op: Op)
    requires var p0 := Empty(maxSize);
             Disciplined(Messages, p0, ops) && Permitted(Run(Messages, p0, ops), RunRefs(Messages, p0, ops), op)
    ensures var p0 := Empty(maxSize);
            var (q, a) := Exec(Messages, Run(Messages, p0, ops), op);
            && Disciplined(Messages, p0, ops + [op])
            && Run(Messages, p0, ops + [op]) == q
            && Answers(Messages, p0, ops + [op]) == Answers(Messages, p0, ops) + [a]
            && RunRefs(Messages, p0, ops + [op]) == Refs(RunRefs(Messages, p0, ops), op, a)
  {
    assert (ops + [op])[..|ops + [op]| - 1] == ops;
  }

  /** The log and the partition after serving op for client c, when T are the references. */
  ghost predicate LogAfter(maxSize: nat, p: Part, log: seq<(nat, Event)>, T: multiset<Answer>, c: nat, op: Op)
  {
    var (q, a) := Exec(Messages, p, op);
    LogOk(maxSize, q, log + [(c, Event(op, a))], T)
  }

  lemma LogStep(maxSize: nat, p: Part, log: seq<(nat, Event)>, T: multiset<Answer>, c: nat, op: Op)
    requires LogOk(maxSize, p, log, T) && Permitted(p, T, op)
    ensures LogAfter(maxSize, p, log, Refs(T, op, Exec(Messages, p, op).1), c, op)
  {
    RunSnoc(maxSize, LogOps(log), op);
    LogSnoc(log, (c, Event(op, Exec(Messages, p, op).1)));
  }

  lemma KeysStep(n: nat, maxSize: nat, p: Part, log: seq<(nat, Event)>, T: multiset<Answer>, op: Op, s: nat)
    requires n > 0 && LogOk(maxSize, p, log, T) && Permitted(p, T, op) && KeysRouted(n, p, s)
             && HandOk(n, maxSize, op, s)
    ensures KeysAfter(n, p, op, s)
  {
    Lifetime.RunOk(Messages, maxSize, LogOps(log));
    ExecKeys(n, p, T, op, s);
  }

  ghost predicate KeysAfter(n: nat, p: Part, op: Op, s: nat)
    requires n > 0
  {
    KeysRouted(n, Exec(Messages, p, op).0, s)
  }

  /** A request in a server's hands: it is for this server, and an insert fits. */
  ghost predicate HandOk(n: nat, maxSize: nat, op: Op, s: nat)
    requires n > 0
  {
    if op.Release? then op.ref.Ref? else Control.QueryOk(maxSize, op) && ServerOf(op.key, n) == s
  }

  /** Client c has op next in the hands of server s, and op is fit to be served. */
  ghost predicate NextOp(n: nat, maxSize: nat, cls: seq<Client>, c: nat, s: nat, op: Op) {
    && n > 0 && c < |cls| && (forall d :: 0 <= d < |cls| ==> s < |cls[d].boxes| && cls[d].rd <= |cls[d].got|)
    && cls[c].boxes[s].hand != [] && op == cls[c].boxes[s].hand[0] && HandOk(n, maxSize, op, s)
  }

  /** The clients once the request of client c has been served with answer a. */
  function AfterServe(cls: seq<Client>, c: nat, s: nat, a: Option<Answer>): seq<Client>
    requires c < |cls| && s < |cls[c].boxes| && cls[c].boxes[s].hand != []
  {
    cls[c := SetBox(cls[c], s, Serve(cls[c].boxes[s], a))]
  }

  /** What a server is about to do is permitted, and how the references change. */
  lemma ServeRefs(n: nat, maxSize: nat, p: Part, cls: seq<Client>, c: nat, s: nat, op: Op)
    requires NextOp(n, maxSize, cls, c, s, op) && p.maxSize == maxSize
    ensures Permitted(p, Sum(cls, s), op)
    ensures var a := Exec(Messages, p, op).1; Sum(AfterServe(cls, c, s, a), s) == Refs(Sum(cls, s), op, a)
  {
    var a := Exec(Messages, p, op).1;
    Control.ExecAnswers(p, op);
    ServeTokens(cls[c], s, a);
    SumRefs(cls, s, c, SetBox(cls[c], s, Serve(cls[c].boxes[s], a)), op, a);
  }

  lemma ServeRoutes(log: seq<(nat, Event)>, e: (nat, Event), cls: seq<Client>, s: nat, b: Box)
    requires e.0 < |cls| && forall c :: 0 <= c < |cls| ==> s < |cls[c].boxes| && Route(log, c) == cls[c].boxes[s].served
    requires b.served == cls[e.0].boxes[s].served + [e.1]
    ensures forall c :: 0 <= c < |cls| ==> Route(log + [e], c) == cls[e.0 := SetBox(cls[e.0], s, b)][c].boxes[s].served
  {
    forall c | 0 <= c < |cls| ensures Route(log + [e], c) == cls[e.0 := SetBox(cls[e.0], s, b)][c].boxes[s].served {
      RouteSnoc(log, e, c);
    }
  }

  ghost predicate Serving(n: nat, st: State, s: nat)
    requires Shape(n, st) && s < n
  {
    st.servers[s].serving && st.clients[st.servers[s].cursor].boxes[s].hand != []
  }

  lemma PartSize(maxSize: nat, p: Part, log: seq<(nat, Event)>, T: multiset<Answer>)
    requires LogOk(maxSize, p, log, T)
    ensures p.maxSize == maxSize
  {
    Lifetime.RunOk(Messages, maxSize, LogOps(log));
  }

  lemma ServeLog(n: nat, maxSize: nat, p: Part, log: seq<(nat, Event)>, cls: seq<Client>, c: nat, s: nat, op: Op)
    requires NextOp(n, maxSize, cls, c, s, op) && LogOk(maxSize, p, log, Sum(cls, s))
    ensures LogAfter(maxSize, p, log, Sum(AfterServe(cls, c, s, Exec(Messages, p, op).1), s), c, op)
  {
    PartSize(maxSize, p, log, Sum(cls, s));
    ServeRefs(n, maxSize, p, cls, c, s, op);
    LogStep(maxSize, p, log, Sum(cls, s), c, op);
  }

  lemma ServeKeys(n: nat, maxSize: nat, p: Part, log: seq<(nat, Event)>, cls: seq<Client>, c: nat, s: nat, op: Op)
    requires NextOp(n, maxSize, cls, c, s, op) && LogOk(maxSize, p, log, Sum(cls, s)) && KeysRouted(n, p, s)
    ensures KeysAfter(n, p, op, s)
  {
    PartSize(maxSize, p, log, Sum(cls, s));
    ServeRefs(n, maxSize, p, cls, c, s, op);
    KeysStep(n, maxSize, p, log, Sum(cls, s), op, s);
  }

  lemma ServedState(n: nat, st: State, s: nat)
    requires Shape(n, st) && s < n && Serving(n, st, s)
    ensures var sv, r := st.servers[s], ServerStep(n, st, s);
            var cl := st.clients[sv.cursor];
            var (p, a) := Exec(Messages, sv.part, cl.boxes[s].hand[0]);
            && r.clients == st.clients[sv.cursor := SetBox(cl, s, Serve(cl.boxes[s], a))]
            && |r.servers| == n && r.servers[s].part == p
            && r.servers[s].log == sv.log + [(sv.cursor, Event(cl.boxes[s].hand[0], a))]
  {
  }

  /** r is st with one event logged and one box served. */
  lemma ServeRouted(n: nat, st: State, r: State, s: nat, e: (nat, Event), b: Box)
    requires Shape(n, st) && Shape(n, r) && s < n && Routed(n, st, s) && e.0 < |st.clients|
    requires b.served == st.clients[e.0].boxes[s].served + [e.1]
    requires r.clients == st.clients[e.0 := SetBox(st.clients[e.0], s, b)]
    requires r.servers[s].log == st.servers[s].log + [e]
    ensures Routed(n, r, s)
  {
    var log, cls := r.servers[s].log, r.clients;
    ServeRoutes(st.servers[s].log, e, st.clients, s, b);
    assert |cls| == |st.clients|;
    forall i | 0 <= i < |log| ensures log[i].0 < |cls| {
      assert i < |st.servers[s].log| ==> log[i] == st.servers[s].log[i];
    }
    forall c | 0 <= c < |cls| ensures Route(log, c) == cls[c].boxes[s].served {
    }
  }

  lemma ServeDone(n: nat, maxSize: nat, st: State, s: nat, op: Op)
    requires Shape(n, st) && s < n && Serving(n, st, s) && Shape(n, ServerStep(n, st, s))
    requires TableOk(n, maxSize, st, s) && KeysRouted(n, st.servers[s].part, s)
    requires NextOp(n, maxSize, st.clients, st.servers[s].cursor, s, op)
    ensures TableOk(n, maxSize, ServerStep(n, st, s), s) && KeysRouted(n, ServerStep(n, st, s).servers[s].part, s)
  {
    var sv := st.servers[s];
    var a := Exec(Messages, sv.part, op).1;
    ServedState(n, st, s);
    ServeLog(n, maxSize, sv.part, sv.log, st.clients, sv.cursor, s, op);
    ServeKeys(n, maxSize, sv.part, sv.log, st.clients, sv.cursor, s, op);
    ServeRouted(n, st, ServerStep(n, st, s), s, (sv.cursor, Event(op, a)), Serve(st.clients[sv.cursor].boxes[s], a));
  }

  lemma ServeSafe(n: nat, maxSize: nat, st: State, s: nat)
    requires Control.SystemOk(n, maxSize, st) && s < n && Serving(n, st, s)
    requires TableOk(n, maxSize, st, s) && KeysRouted(n, st.servers[s].part, s)
    requires Shape(n, ServerStep(n, st, s))
    ensures TableOk(n, maxSize, ServerStep(n, st, s), s) && KeysRouted(n, ServerStep(n, st, s).servers[s].part, s)
  {
    var cl := st.clients[st.servers[s].cursor];
    assert Control.ClientOk(n, maxSize, cl);
    HandPermitted(n, maxSize, cl, s);
    ServeDone(n, maxSize, st, s, cl.boxes[s].hand[0]);
  }

  /** Changing one client without serving anything at t keeps what is known about t. */
  lemma TableSame(n: nat, maxSize: nat, st: State, r: State, c: nat, cl: Client, t: nat)
    requires Shape(n, st) && Shape(n, r) && t < n && TableOk(n, maxSize, st, t)
    requires r.servers[t].part == st.servers[t].part && r.servers[t].log == st.servers[t].log
    requires c < |st.clients| && r.clients == st.clients[c := cl] && t < |cl.boxes| && cl.rd <= |cl.got|
    requires Tokens(cl, t) == Tokens(st.clients[c], t) && cl.boxes[t].served == st.clients[c].boxes[t].served
    ensures TableOk(n, maxSize, r, t)
  {
    SumSame(st.clients, t, c, cl);
  }

  lemma OtherTokens(cl: Client, s: nat, b: Box, t: nat)
    requires s < |cl.boxes| && t < |cl.boxes| && t != s && cl.rd <= |cl.got|
    ensures Tokens(SetBox(cl, s, b), t) == Tokens(cl, t)
  {
  }

  lemma QuietServer(n: nat, st: State, s: nat, t: nat)
    requires Shape(n, st) && s < n && t < n && (t == s ==> !Serving(n, st, s))
    requires t == s && !st.servers[s].serving ==> st.clients[st.servers[s].cursor].boxes[s].hand == []
    ensures var sv := st.servers[s];
            var cl := st.clients[sv.cursor];
            var r := ServerStep(n, st, s);
            var cl' := SetBox(cl, s, Control.ServedBox(sv, cl.boxes[s]));
            && Shape(n, r) && r.clients == st.clients[sv.cursor := cl']
            && r.servers[t].part == st.servers[t].part && r.servers[t].log == st.servers[t].log
            && Tokens(cl', t) == Tokens(cl, t) && cl'.boxes[t].served == cl.boxes[t].served
  {
    var sv := st.servers[s];
    var cl := st.clients[sv.cursor];
    Control.ServerStepClients(n, st, s);
    if t != s { OtherTokens(cl, s, Control.ServedBox(sv, cl.boxes[s]), t); } else { QuietTokens(cl, sv, s); }
  }

  lemma QuietStep(n: nat, maxSize: nat, st: State, s: nat, t: nat)
    requires Shape(n, st) && s < n && t < n && (t == s ==> !Serving(n, st, s))
    requires Control.ServerOk(st, s) && TableOk(n, maxSize, st, t)
    ensures Shape(n, ServerStep(n, st, s)) && TableOk(n, maxSize, ServerStep(n, st, s), t)
    ensures ServerStep(n, st, s).servers[t].part == st.servers[t].part
  {
    var sv := st.servers[s];
    var cl := st.clients[sv.cursor];
    QuietServer(n, st, s, t);
    TableSame(n, maxSize, st, ServerStep(n, st, s), sv.cursor, SetBox(cl, s, Control.ServedBox(sv, cl.boxes[s])), t);
  }

  lemma ServerStepSafe(n: nat, maxSize: nat, st: State, s: nat, t: nat)
    requires SafeState(n, maxSize, st) && s < n && t < n && Control.SystemOk(n, maxSize, ServerStep(n, st, s))
    ensures TableOk(n, maxSize, ServerStep(n, st, s), t) && KeysRouted(n, ServerStep(n, st, s).servers[t].part, t)
  {
    if t == s && Serving(n, st, s) {
      assert TableOk(n, maxSize, st, s);
      ServeSafe(n, maxSize, st, s);
    } else {
      assert Control.ServerOk(st, s) && TableOk(n, maxSize, st, t);
      QuietStep(n, maxSize, st, s, t);
    }
  }

  /** Reading a slot and pushing answers move reply words without changing their sum. */
  lemma QuietTokens(cl: Client, sv: Server, s: nat)
    requires s < |cl.boxes| && cl.rd <= |cl.got|
    requires cl.boxes[s].hand == []
    ensures Tokens(SetBox(cl, s, Control.ServedBox(sv, cl.boxes[s])), s) == Tokens(cl, s)
  {
    if sv.serving { PushTokens(cl, s); } else if cl.boxes[s].ring != [] { PollTokens(cl, s); }
  }

  lemma ClientMoveSafe(n: nat, maxSize: nat, st: State, c: nat, a: Act, t: nat)
    requires Shape(n, st) && c < |st.clients| && t < n
    requires Control.ClientOk(n, maxSize, st.clients[c]) && TableOk(n, maxSize, st, t)
    requires Shape(n, Apply(n, st, ClientMove(c, a)))
    ensures TableOk(n, maxSize, Apply(n, st, ClientMove(c, a)), t)
  {
    var cl := st.clients[c];
    Control.ClientStepBoxes(n, cl, a);
    ClientStepTokens(n, maxSize, cl, a, t);
    TableSame(n, maxSize, st, Apply(n, st, ClientMove(c, a)), c, ClientStep(n, cl, a), t);
  }

  lemma StepSafe(n: nat, maxSize: nat, st: State, step: Step)
    requires SafeState(n, maxSize, st) && CanStep(n, maxSize, st, step)
    ensures SafeState(n, maxSize, Apply(n, st, step))
  {
    Control.StepOk(n, maxSize, st, step);
    var r := Apply(n, st, step);
    forall t | 0 <= t < n ensures TableOk(n, maxSize, r, t) && KeysRouted(n, r.servers[t].part, t) {
      match step
      case ServerMove(s) => ServerStepSafe(n, maxSize, st, s, t);
      case ClientMove(c, a) =>
        assert Control.ClientOk(n, maxSize, st.clients[c]) && TableOk(n, maxSize, st, t);
        ClientMoveSafe(n, maxSize, st, c, a, t);
    }
  }

  lemma {:induction false} NoTokens(cls: seq<Client>, s: nat)
    requires forall c :: 0 <= c < |cls| ==>
               s < |cls[c].boxes| && cls[c].rd == 0 && cls[c].got == [] && cls[c].later == []
               && cls[c].boxes[s] == EmptyBox()
    ensures Sum(cls, s) == multiset{}
  {
    if cls != [] {
      NoTokens(cls[..|cls| - 1], s);
      var cl := cls[|cls| - 1];
      var b := EmptyBox();
      assert cl.got[cl.rd..] == [];
      assert Unserved(b) == [];
      assert b.out + b.replies == [];
    }
  }

  lemma StartTable(n: nat, maxSize: nat, st: State, s: nat)
    requires Shape(n, st) && s < n && st.servers[s].part == Empty(maxSize) && st.servers[s].log == []
    requires forall c :: 0 <= c < |st.clients| ==>
               st.clients[c].rd == 0 && st.clients[c].got == [] && st.clients[c].later == []
               && st.clients[c].boxes[s] == EmptyBox()
    ensures TableOk(n, maxSize, st, s)
  {
    NoTokens(st.clients, s);
  }

  lemma StartSafe(n: nat, nclients: nat, maxSize: nat)
    requires n > 0 && nclients > 0
    ensures SafeState(n, maxSize, Start(n, nclients, maxSize))
  {
    Control.StartOk(n, nclients, maxSize);
    var st := Start(n, nclients, maxSize);
    forall s | 0 <= s < n ensures TableOk(n, maxSize, st, s) {
      StartTable(n, maxSize, st, s);
    }
  }

  lemma {:induction false} RunSafe(n: nat, nclients: nat, maxSize: nat, run: seq<State>, steps: seq<Step>, i: nat)
    requires IsRun(n, nclients, maxSize, run, steps) && i < |run|
    ensures SafeState(n, maxSize, run[i])
  {
    if i == 0 {
      StartSafe(n, nclients, maxSize);
    } else {
      RunSafe(n, nclients, maxSize, run, steps, i - 1);
      assert Linked(n, maxSize, run[i - 1], steps[i - 1], run[i - 1 + 1]);
      StepSafe(n, maxSize, run[i - 1], steps[i - 1]);
    }
  }

  // Consequences in every state of every run.

  lemma CountsAre(n: nat, maxSize: nat, st: State, s: nat, id: Id)
    requires SafeState(n, maxSize, st) && s < n
    ensures PartOk(Messages, st.servers[s].part, Sum(st.clients, s))
    ensures var p, T := st.servers[s].part, Sum(st.clients, s); IdOk(Messages, p.elems, p.next, Ids(p.lru), T, id)
  {
    assert TableOk(n, maxSize, st, s);
    Lifetime.RunOk(Messages, maxSize, LogOps(st.servers[s].log));
  }

  lemma InSum(cls: seq<Client>, s: nat, c: nat, r: Answer)
    requires forall d :: 0 <= d < |cls| ==> s < |cls[d].boxes| && cls[d].rd <= |cls[d].got|
    requires c < |cls| && r in Tokens(cls[c], s)
    ensures r in Sum(cls, s)
  {
    SumUpdate(cls, s, c, cls[c]);
    assert Tokens(cls[c], s)[r] <= Sum(cls, s)[r];
  }

  lemma NotInSum(cls: seq<Client>, s: nat, c: nat, r: Answer)
    requires forall d :: 0 <= d < |cls| ==> s < |cls[d].boxes| && cls[d].rd <= |cls[d].got|
    requires c < |cls| && r !in Sum(cls, s)
    ensures r !in Tokens(cls[c], s)
  {
    SumUpdate(cls, s, c, cls[c]);
    assert Tokens(cls[c], s)[r] <= Sum(cls, s)[r];
  }

  /** Lifetime: in every state of a run the count of each live element of server s,
      without the flag, is one if it is in the table plus the number of reply words and
      unprocessed release messages that name it anywhere in the system; an element is
      live exactly while that number is positive; and no count ever went below zero, no
      freed element was touched and no assertion of hash_insert failed. */
  lemma ElementLifetime(n: nat, nclients: nat, maxSize: nat, run: seq<State>, steps: seq<Step>, i: nat, s: nat, id: Id)
    requires IsRun(n, nclients, maxSize, run, steps) && i < |run| && s < n
    ensures Shape(n, run[i])
    ensures var p, T := run[i].servers[s].part, Sum(run[i].clients, s);
            var uses := (if id in Ids(p.lru) then 1 else 0) + T[Ref(id, Inserter)] + T[Ref(id, Reader)];
            && !p.fault
            && (id in p.elems <==> uses > 0)
            && (id in p.elems ==> p.elems[id].count == uses)
            && (id in Ids(p.lru) ==> (p.elems[id].notReady <==> T[Ref(id, Inserter)] == 1))
  {
    RunSafe(n, nclients, maxSize, run, steps, i);
    CountsAre(n, maxSize, run[i], s, id);
  }

  lemma CountedIsLive(elems: map<Id, Elem>, next: Id, tab: set<Id>, T: multiset<Answer>, r: Answer)
    requires r.Ref? && r in T && IdOk(Messages, elems, next, tab, T, r.id)
    ensures r.id in elems
    ensures r.hold == Reader ==> Ref(r.id, Inserter) !in T
  {
    match r.hold
    case Reader =>
    case Inserter =>
  }

  lemma LiveAtHome(n: nat, p: Part, T: multiset<Answer>, s: nat, r: Answer)
    requires n > 0 && r.Ref? && r in T && IdOk(Messages, p.elems, p.next, Ids(p.lru), T, r.id) && KeysRouted(n, p, s)
    ensures r.id in p.elems && ServerOf(p.elems[r.id].key, n) == s
  {
    CountedIsLive(p.elems, p.next, Ids(p.lru), T, r);
  }

  /** The counts of element id of partition p agree with the references the clients have. */
  ghost predicate Counted(p: Part, cls: seq<Client>, s: nat, id: Id) {
    && (forall d :: 0 <= d < |cls| ==> s < |cls[d].boxes| && cls[d].rd <= |cls[d].got|)
    && IdOk(Messages, p.elems, p.next, Ids(p.lru), Sum(cls, s), id)
  }

  lemma CountedIn(n: nat, maxSize: nat, st: State, s: nat, id: Id)
    requires SafeState(n, maxSize, st) && s < n
    ensures Counted(st.servers[s].part, st.clients, s, id) && KeysRouted(n, st.servers[s].part, s)
  {
    CountsAre(n, maxSize, st, s, id);
  }

  lemma LiveIn(n: nat, p: Part, cls: seq<Client>, c: nat, s: nat, r: Answer)
    requires n > 0 && r.Ref? && Counted(p, cls, s, r.id) && KeysRouted(n, p, s) && c < |cls| && r in Tokens(cls[c], s)
    ensures r.id in p.elems && ServerOf(p.elems[r.id].key, n) == s
  {
    InSum(cls, s, c, r);
    LiveAtHome(n, p, Sum(cls, s), s, r);
  }

  /** A reply word, a value in a client's hands or a release message on its way never
      names a freed element, and the key the client reads from the element to route its
      release message is a key of the server that owns the element. */
  lemma ReferencesAreLive(n: nat, nclients: nat, maxSize: nat, run: seq<State>, steps: seq<Step>, i: nat, c: nat,
                          s: nat, r: Answer)
    requires IsRun(n, nclients, maxSize, run, steps) && i < |run| && s < n
    requires Shape(n, run[i]) && c < |run[i].clients| && r.Ref? && r in Tokens(run[i].clients[c], s)
    ensures var p := run[i].servers[s].part; r.id in p.elems && ServerOf(p.elems[r.id].key, n) == s
  {
    RunSafe(n, nclients, maxSize, run, steps, i);
    CountedIn(n, maxSize, run[i], s, r.id);
    LiveIn(n, run[i].servers[s].part, run[i].clients, c, s, r);
  }

  lemma ExcludedIn(p: Part, cls: seq<Client>, c: nat, d: nat, s: nat, id: Id)
    requires Counted(p, cls, s, id) && c < |cls| && d < |cls| && Ref(id, Reader) in Tokens(cls[c], s)
    ensures Ref(id, Inserter) !in Tokens(cls[d], s)
  {
    InSum(cls, s, c, Ref(id, Reader));
    CountedIsLive(p.elems, p.next, Ids(p.lru), Sum(cls, s), Ref(id, Reader));
    NotInSum(cls, s, d, Ref(id, Inserter));
  }

  /** Payload exclusion: as long as a reader's reference to an element exists anywhere,
      its inserter holds none, that is, has marked the element ready. */
  lemma PayloadExclusion(n: nat, nclients: nat, maxSize: nat, run: seq<State>, steps: seq<Step>, i: nat, c: nat, d: nat,
                         s: nat, id: Id)
    requires IsRun(n, nclients, maxSize, run, steps) && i < |run| && s < n
    requires Shape(n, run[i]) && c < |run[i].clients| && d < |run[i].clients|
    requires Ref(id, Reader) in Tokens(run[i].clients[c], s)
    ensures Ref(id, Inserter) !in Tokens(run[i].clients[d], s)
  {
    RunSafe(n, nclients, maxSize, run, steps, i);
    CountedIn(n, maxSize, run[i], s, id);
    ExcludedIn(run[i].servers[s].part, run[i].clients, c, d, s, id);
  }

  // A freed element never comes back.

  ghost predicate OnlyFresh(p: Part, q: Part) {
    p.next <= q.next && forall id :: id in q.elems && id < p.next ==> id in p.elems
  }

  lemma {:induction false} MakeRoomFresh(p: Part, room: nat)
    ensures OnlyFresh(p, MakeRoom(Messages, p, room)) && MakeRoom(Messages, p, room).next == p.next
    decreases |p.lru|
  {
    if Lru.Total(p.lru) > room { MakeRoomFresh(Remove(Messages, p, |p.lru| - 1), room); }
  }

  lemma ExecFresh(p: Part, op: Op)
    ensures OnlyFresh(p, Exec(Messages, p, op).0)
  {
    if op.Insert? && RoundedSize(op.size) <= p.maxSize {
      MakeRoomFresh(DropOld(Messages, p, op.key), p.maxSize - RoundedSize(op.size));
    }
  }

  lemma StepFresh(n: nat, st: State, step: Step, s: nat)
    requires Shape(n, st) && s < n && Shape(n, Apply(n, st, step))
    ensures OnlyFresh(st.servers[s].part, Apply(n, st, step).servers[s].part)
  {
    if step == ServerMove(s) && Serving(n, st, s) {
      ExecFresh(st.servers[s].part, st.clients[st.servers[s].cursor].boxes[s].hand[0]);
    }
  }

  /** Allocated once, and freed since. */
  ghost predicate Gone(n: nat, st: State, s: nat, id: Id) {
    s < n == |st.servers| && id < st.servers[s].part.next && id !in st.servers[s].part.elems
  }

  lemma GoneNext(n: nat, nclients: nat, maxSize: nat, run: seq<State>, steps: seq<Step>, i: nat, s: nat, id: Id)
    requires IsRun(n, nclients, maxSize, run, steps) && i < |steps| && Gone(n, run[i], s, id)
    ensures Gone(n, run[i + 1], s, id)
  {
    Control.RunOk(n, nclients, maxSize, run, steps, i);
    Control.RunOk(n, nclients, maxSize, run, steps, i + 1);
    assert Linked(n, maxSize, run[i], steps[i], run[i + 1]);
    StepFresh(n, run[i], steps[i], s);
  }

  /** An element freed at one state of a run is freed at every later one: its id is never
      allocated again, so it is freed once. */
  lemma {:induction false} FreedForGood(n: nat, nclients: nat, maxSize: nat, run: seq<State>, steps: seq<Step>, i: nat,
                                        j: nat, s: nat, id: Id)
    requires IsRun(n, nclients, maxSize, run, steps) && i <= j < |run| && Gone(n, run[i], s, id)
    ensures Gone(n, run[j], s, id)
    decreases j
  {
    if i < j {
      FreedForGood(n, nclients, maxSize, run, steps, i, j - 1, s, id);
      GoneNext(n, nclients, maxSize, run, steps, j - 1, s, id);
    }
  }
}
