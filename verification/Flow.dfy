/** What every run keeps about the flow of requests and answers of one client:
    FIFO order through the rings, credits, and the matching of answers to requests. */
module Flow {
  import opened Basics
  import opened Elements
  import opened Routes
  import opened System

  // Projections of the histories.

  function OpsOf(es: seq<Event>): seq<Op> {
    if es == [] then [] else OpsOf(es[..|es| - 1]) + [es[|es| - 1].op]
  }

  function ValuesOf(es: seq<Event>): seq<Answer> {
    if es == [] then [] else
      var last := es[|es| - 1];
      ValuesOf(es[..|es| - 1]) + (if last.answer.Some? then [last.answer.value] else [])
  }

  function Queries(ops: seq<Op>): seq<Op> {
    if ops == [] then [] else
      var last := ops[|ops| - 1];
      Queries(ops[..|ops| - 1]) + (if last.Release? then [] else [last])
  }

  /** The accepted requests that expect an answer, with their servers. */
  function Asked(cmds: seq<(nat, Op)>): seq<(nat, Op)> {
    if cmds == [] then [] else
      var last := cmds[|cmds| - 1];
      Asked(cmds[..|cmds| - 1]) + (if last.1.Release? then [] else [last])
  }

  lemma OpsSnoc(es: seq<Event>, e: Event)
    ensures OpsOf(es + [e]) == OpsOf(es) + [e.op]
    ensures ValuesOf(es + [e]) == ValuesOf(es) + (if e.answer.Some? then [e.answer.value] else [])
  {
    assert (es + [e])[..|es + [e]| - 1] == es;
  }

  lemma AskedSnoc(cmds: seq<(nat, Op)>, x: (nat, Op))
    ensures Asked(cmds + [x]) == Asked(cmds) + (if x.1.Release? then [] else [x])
  {
    assert (cmds + [x])[..|cmds + [x]| - 1] == cmds;
  }

  lemma WordsSnoc(ops: seq<Op>, op: Op)
    ensures WordsOf(ops + [op]) == WordsOf(ops) + Words(op)
  {
    assert (ops + [op])[..|ops + [op]| - 1] == ops;
  }

  // The invariant.

  ghost predicate BatchOk(batch: seq<Op>) {
    batch != [] && WordsOf(batch) <= INPB_SIZE
  }

  ghost predicate RingOk(b: Box) {
    && WordsOf(b.local) <= INPB_SIZE && |b.ring| <= INPB_COUNT && |b.hand| <= INPB_SIZE
    && (forall i :: 0 <= i < |b.ring| ==> BatchOk(b.ring[i]))
    && (forall i :: 0 <= i < |b.served| ==> (b.served[i].answer.None? <==> b.served[i].op.Release?))
  }

  /** Everything written is served, in the server's hands, published, or local, in that
      order; and every answer is read, unread, or not yet pushed, in that order. */
  ghost predicate FifoOk(cl: Client, s: nat, b: Box) {
    && Route(cl.cmds, s) == OpsOf(b.served) + b.hand + Flat(b.ring) + b.local
    && Route(cl.got, s) + b.out + b.replies == ValuesOf(b.served)
  }

  ghost predicate BoxOk(cl: Client, s: nat)
    requires s < |cl.boxes| && s < |cl.credit|
  {
    && RingOk(cl.boxes[s]) && FifoOk(cl, s, cl.boxes[s])
    && cl.credit[s] == Count(cl.pending, s) <= MAX_PENDING_PER_SERVER
  }

  ghost predicate DataOk(n: nat, cl: Client) {
    && n == |cl.boxes| == |cl.credit| && cl.rd <= |cl.got|
    && Tags(Asked(cl.cmds)) == Tags(cl.got) + cl.pending
    && (forall i :: 0 <= i < |cl.pending| ==> cl.pending[i] < n)
    && (forall i :: 0 <= i < |cl.got| ==> cl.got[i].0 < n)
    && (forall i :: 0 <= i < |cl.later| ==> cl.later[i].0 < n)
    && (forall i :: 0 <= i < |cl.cmds| ==> cl.cmds[i].0 < n)
    && (forall s :: 0 <= s < n ==> BoxOk(cl, s))
  }

  lemma PublishOk(n: nat, cl: Client, s: nat)
    requires DataOk(n, cl) && HasRoom(cl, s) && cl.boxes[s].local != []
    ensures DataOk(n, Publish(cl, s))
  {
    var r := Publish(cl, s);
    var b := cl.boxes[s];
    FlatSnoc(b.ring, b.local);
    assert BoxOk(cl, s);
    assert FifoOk(r, s, r.boxes[s]);
    forall t | 0 <= t < n ensures BoxOk(r, t) { assert BoxOk(cl, t); }
  }

  lemma FlushedOk(n: nat, cl: Client, s: nat)
    requires DataOk(n, cl) && FlushReady(cl, s)
    ensures DataOk(n, Flushed(cl, s)) && Flushed(cl, s).boxes[s].local == []
  {
    if cl.boxes[s].local != [] { PublishOk(n, cl, s); }
  }

  lemma AppendBox(cl: Client, s: nat, op: Op, t: nat)
    requires s < |cl.boxes| == |cl.credit| && t < |cl.boxes| && BoxOk(cl, t)
    requires WordsOf(cl.boxes[s].local) + Words(op) <= INPB_SIZE
    requires !op.Release? ==> cl.credit[s] < MAX_PENDING_PER_SERVER
    ensures BoxOk(Append(cl, s, op), t)
  {
    var r := Append(cl, s, op);
    RouteSnoc(cl.cmds, (s, op), t);
    CountSnoc(cl.pending, s, t);
    if t == s {
      var b := cl.boxes[s];
      WordsSnoc(b.local, op);
      Assoc(OpsOf(b.served) + b.hand + Flat(b.ring), b.local, [op]);
      assert RingOk(r.boxes[s]);
      assert FifoOk(r, s, r.boxes[s]);
    } else {
      assert r.boxes[t] == cl.boxes[t] && Route(r.cmds, t) == Route(cl.cmds, t);
    }
  }

  lemma AppendOk(n: nat, cl: Client, s: nat, op: Op)
    requires DataOk(n, cl) && s < n && WordsOf(cl.boxes[s].local) + Words(op) <= INPB_SIZE
    requires !op.Release? ==> cl.credit[s] < MAX_PENDING_PER_SERVER
    ensures DataOk(n, Append(cl, s, op))
  {
    var r := Append(cl, s, op);
    AskedSnoc(cl.cmds, (s, op));
    forall t | 0 <= t < n ensures BoxOk(r, t) {
      assert BoxOk(cl, t);
      AppendBox(cl, s, op, t);
    }
    if !op.Release? { TagsSnoc(Asked(cl.cmds), (s, op), Tags(cl.got), cl.pending); }
  }

  lemma TagsSnoc<T>(xs: seq<(nat, T)>, x: (nat, T), p: seq<nat>, q: seq<nat>)
    requires Tags(xs) == p + q
    ensures Tags(xs + [x]) == p + (q + [x.0])
  {
  }

  lemma TakeBox(cl: Client, t: nat)
    requires CanTake(cl) && t < |cl.boxes| && BoxOk(cl, t)
    ensures BoxOk(Take(cl), t)
  {
    var r := Take(cl);
    var s := cl.pending[0];
    var a := cl.boxes[s].out[0];
    RouteSnoc(cl.got, (s, a), t);
    CountHead(cl.pending, t);
    if t == s {
      var b := cl.boxes[s];
      assert b.out == [a] + b.out[1..];
      assert Route(cl.got, s) + [a] + b.out[1..] + b.replies == Route(cl.got, s) + b.out + b.replies;
      assert RingOk(r.boxes[s]) && FifoOk(r, s, r.boxes[s]);
    } else {
      assert r.boxes[t] == cl.boxes[t] && Route(r.got, t) == Route(cl.got, t);
    }
  }

  lemma TakeOk(n: nat, cl: Client)
    requires DataOk(n, cl) && CanTake(cl)
    ensures DataOk(n, Take(cl))
  {
    var r := Take(cl);
    var s := cl.pending[0];
    assert Tags(cl.got + [(s, cl.boxes[s].out[0])]) + cl.pending[1..] == Tags(cl.got) + cl.pending;
    forall t | 0 <= t < n ensures BoxOk(r, t) {
      assert BoxOk(cl, t);
      TakeBox(cl, t);
    }
  }

  lemma DeliverOk(n: nat, cl: Client)
    requires DataOk(n, cl) && cl.rd < |cl.got|
    ensures DataOk(n, DeliverNext(cl))
    ensures DeliverNext(cl) == cl.(rd := cl.rd + 1, boxes := DeliverNext(cl).boxes)
    ensures forall t :: 0 <= t < n ==> DeliverNext(cl).boxes[t] == cl.boxes[t].(held := DeliverNext(cl).boxes[t].held)
  {
    var r := DeliverNext(cl);
    forall t | 0 <= t < n ensures BoxOk(r, t) { assert BoxOk(cl, t); }
  }

  lemma DeliverLaterOk(n: nat, cl: Client)
    requires DataOk(n, cl) && cl.later != []
    ensures DataOk(n, DeliverLater(cl))
    ensures DeliverLater(cl) == cl.(later := cl.later[1..], boxes := DeliverLater(cl).boxes)
    ensures forall t :: 0 <= t < n ==> DeliverLater(cl).boxes[t] == cl.boxes[t].(held := DeliverLater(cl).boxes[t].held)
  {
    var r := DeliverLater(cl);
    forall t | 0 <= t < n ensures BoxOk(r, t) { assert BoxOk(cl, t); }
  }

  lemma SetAsideOk(n: nat, cl: Client)
    requires DataOk(n, cl)
    ensures DataOk(n, SetAside(cl))
  {
    forall t | 0 <= t < n ensures BoxOk(SetAside(cl), t) { assert BoxOk(cl, t); }
  }

  lemma {:induction false} DeliverAllOk(n: nat, cl: Client)
    requires DataOk(n, cl)
    ensures DataOk(n, DeliverAll(cl)) && DeliverAll(cl).rd == |cl.got|
    ensures DeliverAll(cl) == cl.(rd := |cl.got|, boxes := DeliverAll(cl).boxes)
    ensures forall t :: 0 <= t < n ==> DeliverAll(cl).boxes[t] == cl.boxes[t].(held := DeliverAll(cl).boxes[t].held)
    decreases |cl.got| - cl.rd
  {
    if cl.rd < |cl.got| {
      DeliverOk(n, cl);
      DeliverAllOk(n, DeliverNext(cl));
    }
  }

  // Server steps seen from the client's side.

  lemma SetBoxOk(n: nat, cl: Client, s: nat, b: Box)
    requires DataOk(n, cl) && s < n && RingOk(b) && FifoOk(cl, s, b)
    ensures DataOk(n, SetBox(cl, s, b))
  {
    var r := SetBox(cl, s, b);
    forall t | 0 <= t < n ensures BoxOk(r, t) { assert BoxOk(cl, t); }
  }

  lemma {:induction false} OpsFit(ops: seq<Op>)
    ensures |ops| <= WordsOf(ops)
  {
    if ops != [] { OpsFit(ops[..|ops| - 1]); }
  }

  lemma PollOk(n: nat, cl: Client, s: nat)
    requires DataOk(n, cl) && s < n && cl.boxes[s].ring != [] && cl.boxes[s].hand == []
    ensures DataOk(n, SetBox(cl, s, Poll(cl.boxes[s])))
  {
    var b := cl.boxes[s];
    assert BoxOk(cl, s);
    FlatHead(b.ring);
    assert BatchOk(b.ring[0]);
    OpsFit(b.ring[0]);
    assert OpsOf(b.served) + b.hand + Flat(b.ring) == OpsOf(b.served) + b.ring[0] + Flat(b.ring[1..]);
    SetBoxOk(n, cl, s, Poll(b));
  }

  lemma ServeOk(n: nat, cl: Client, s: nat, answer: Option<Answer>)
    requires DataOk(n, cl) && s < n && cl.boxes[s].hand != []
    requires answer.None? <==> cl.boxes[s].hand[0].Release?
    ensures DataOk(n, SetBox(cl, s, Serve(cl.boxes[s], answer)))
  {
    var b := cl.boxes[s];
    var r := Serve(b, answer);
    assert BoxOk(cl, s);
    OpsSnoc(b.served, Event(b.hand[0], answer));
    assert b.hand == [b.hand[0]] + r.hand;
    assert OpsOf(b.served) + b.hand == OpsOf(r.served) + r.hand;
    SetBoxOk(n, cl, s, r);
  }

  lemma PushOk(n: nat, cl: Client, s: nat)
    requires DataOk(n, cl) && s < n
    ensures DataOk(n, SetBox(cl, s, Push(cl.boxes[s])))
  {
    var b := cl.boxes[s];
    assert BoxOk(cl, s);
    assert Route(cl.got, s) + b.out + b.replies == Route(cl.got, s) + (b.out + b.replies) + [];
    SetBoxOk(n, cl, s, Push(b));
  }
}
