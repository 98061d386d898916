/** Who holds references to the elements of a partition while the whole system runs:
    reply words in the rings, values in client hands, and release messages on their
    way back.  Their total is what the partition's counts count. */
module References {
  import opened Basics
  import opened Elements
  import opened Lifetime
  import opened Routes
  import opened System
  import opened Flow
  import opened Control

  /** The references release messages give back. */
  function Returned(ops: seq<Op>): seq<Answer> {
    if ops == [] then [] else
      var last := ops[|ops| - 1];
      Returned(ops[..|ops| - 1]) + (if last.Release? then [last.ref] else [])
  }

  function Unserved(b: Box): seq<Op> {
    b.hand + Flat(b.ring) + b.local
  }

  /** The reply words of server s that client cl accounts for. */
  ghost function Tokens(cl: Client, s: nat): multiset<Answer>
    requires s < |cl.boxes| && cl.rd <= |cl.got|
  {
    multiset(Route(cl.later, s)) + Moving(cl, s)
  }

  /** Those in the rings, in release messages, in the caller's hands, or read since the last
      smp_hash_doall. */
  ghost function Moving(cl: Client, s: nat): multiset<Answer>
    requires s < |cl.boxes| && cl.rd <= |cl.got|
  {
    var b := cl.boxes[s];
    multiset(Route(cl.got[cl.rd..], s)) + b.held + multiset(b.out + b.replies) + multiset(Returned(Unserved(b)))
  }

  lemma ReturnedSnoc(ops: seq<Op>, op: Op)
    ensures Returned(ops + [op]) == Returned(ops) + (if op.Release? then [op.ref] else [])
  {
    assert (ops + [op])[..|ops + [op]| - 1] == ops;
  }

  lemma {:induction false} ReturnedHead(ops: seq<Op>)
    requires ops != []
    ensures Returned(ops) == (if ops[0].Release? then [ops[0].ref] else []) + Returned(ops[1..])
  {
    var init, last := ops[..|ops| - 1], ops[|ops| - 1];
    if init == [] {
      assert ops[1..] == [];
    } else {
      ReturnedHead(init);
      ReturnedSnoc(init[1..], last);
      assert init[1..] + [last] == ops[1..];
    }
  }

  // Moving one reply word between the four places a client accounts for.

  lemma BagSnoc(xs: seq<Answer>, x: Answer)
    ensures multiset(xs + [x]) == multiset(xs) + multiset{x}
    ensures multiset([x] + xs) == multiset{x} + multiset(xs)
  {
  }

  lemma Move(a: multiset<Answer>, h: multiset<Answer>, c: multiset<Answer>, d: multiset<Answer>, x: Answer)
    ensures (a + multiset{x}) + h + c + d == a + h + (multiset{x} + c) + d
    ensures a + (h + multiset{x}) + c + d == (multiset{x} + a) + h + c + d
    ensures x in h ==> a + (h - multiset{x}) + c + (d + multiset{x}) == a + h + c + d
  {
  }

  lemma Exchange(a: multiset<Answer>, h: multiset<Answer>, c: multiset<Answer>, d: multiset<Answer>, x: Answer)
    ensures a + h + (c + multiset{x}) + d == (a + h + c + d) + multiset{x}
    ensures a + h + c + (multiset{x} + d) - multiset{x} == a + h + c + d
  {
  }

  // Client steps move reply words around and neither make nor lose one.

  lemma FlushedTokens(cl: Client, s: nat, t: nat)
    requires s < |cl.boxes| && t < |cl.boxes| && cl.rd <= |cl.got|
    ensures Tokens(Flushed(cl, s), t) == Tokens(cl, t)
  {
    var b := cl.boxes[s];
    FlatSnoc(b.ring, b.local);
    assert b.hand + (Flat(b.ring) + b.local) + [] == Unserved(b);
  }

  lemma AppendTokens(cl: Client, s: nat, op: Op, t: nat)
    requires s < |cl.boxes| == |cl.credit| && t < |cl.boxes| && cl.rd <= |cl.got|
    requires op.Release? ==> op.ref in cl.boxes[s].held
    ensures Tokens(Append(cl, s, op), t) == Tokens(cl, t)
  {
    if t == s {
      var b, r := cl.boxes[s], Append(cl, s, op).boxes[s];
      Assoc(b.hand + Flat(b.ring), b.local, [op]);
      var u := Unserved(b);
      assert Unserved(r) == u + [op];
      ReturnedSnoc(u, op);
      if op.Release? {
        BagSnoc(Returned(u), op.ref);
        Move(multiset(Route(cl.got[cl.rd..], s)), b.held, multiset(b.out + b.replies), multiset(Returned(u)), op.ref);
      }
    }
  }

  lemma TakeTokens(cl: Client, t: nat)
    requires CanTake(cl) && t < |cl.boxes| && cl.rd <= |cl.got|
    ensures Tokens(Take(cl), t) == Tokens(cl, t)
  {
    var s := cl.pending[0];
    var b, r := cl.boxes[s], Take(cl);
    var a := b.out[0];
    assert r.got[r.rd..] == cl.got[cl.rd..] + [(s, a)];
    RouteSnoc(cl.got[cl.rd..], (s, a), t);
    if t == s {
      var rest := b.out[1..] + b.replies;
      assert b.out + b.replies == [a] + rest;
      BagSnoc(rest, a);
      BagSnoc(Route(cl.got[cl.rd..], s), a);
      Move(multiset(Route(cl.got[cl.rd..], s)), b.held, multiset(rest), multiset(Returned(Unserved(b))), a);
    }
  }

  lemma DeliverTokens(cl: Client, t: nat)
    requires cl.rd < |cl.got| && cl.got[cl.rd].0 < |cl.boxes| && t < |cl.boxes|
    ensures Tokens(DeliverNext(cl), t) == Tokens(cl, t)
  {
    var (s, a) := cl.got[cl.rd];
    RouteHead(cl.got[cl.rd..], t);
    assert cl.got[cl.rd..][1..] == cl.got[cl.rd + 1..];
    if t == s {
      var b, rest := cl.boxes[s], Route(cl.got[cl.rd + 1..], s);
      BagSnoc(rest, a);
      Move(multiset(rest), b.held, multiset(b.out + b.replies), multiset(Returned(Unserved(b))), a);
    }
  }

  lemma {:induction false} DeliverAllTokens(n: nat, cl: Client, t: nat)
    requires DataOk(n, cl) && t < n
    ensures |DeliverAll(cl).boxes| == n && DeliverAll(cl).rd == |cl.got| == |DeliverAll(cl).got|
    ensures Tokens(DeliverAll(cl), t) == Tokens(cl, t)
    decreases |cl.got| - cl.rd
  {
    DeliverAllOk(n, cl);
    if cl.rd < |cl.got| {
      DeliverOk(n, cl);
      DeliverTokens(cl, t);
      DeliverAllTokens(n, DeliverNext(cl), t);
    }
  }

  ghost predicate TokensSame(cl: Client, r: Client, t: nat)
    requires t < |cl.boxes| && cl.rd <= |cl.got|
  {
    t < |r.boxes| && r.rd <= |r.got| && Tokens(r, t) == Tokens(cl, t)
  }

  lemma PcTokens(cl: Client, pc: Pc, t: nat)
    requires t < |cl.boxes| && cl.rd <= |cl.got|
    ensures TokensSame(cl, cl.(pc := pc), t)
  {
  }

  lemma PutTokens(n: nat, maxSize: nat, cl: Client, t: nat)
    requires ClientOk(n, maxSize, cl) && t < n && cl.pc.Put?
    ensures TokensSame(cl, Go1(n, cl), t)
  {
    var r := Go1(n, cl);
    if WordsOf(cl.boxes[cl.pc.s].local) + Words(cl.pc.op) > INPB_SIZE {
      PcTokens(cl, r.pc, t);
    } else {
      AppendTokens(cl, cl.pc.s, cl.pc.op, t);
      PcTokens(Append(cl, cl.pc.s, cl.pc.op), r.pc, t);
    }
  }

  lemma FlushTokens(cl: Client, s: nat, pc: Pc, t: nat)
    requires t < |cl.boxes| && cl.rd <= |cl.got| && s < |cl.boxes|
    ensures TokensSame(cl, cl.(pc := pc), t) && TokensSame(cl, Flushed(cl, s).(pc := pc), t)
  {
    PcTokens(cl, pc, t);
    FlushedTokens(cl, s, t);
    PcTokens(Flushed(cl, s), pc, t);
  }

  lemma AfterTokens(cl: Client, task: Task, t: nat)
    requires t < |cl.boxes| && cl.rd <= |cl.got|
    ensures TokensSame(cl, AfterTake(cl, task), t)
  {
    match task
    case Submit(op, batch) => PcTokens(cl, Admit(op, batch), t);
    case Deliver =>
      if cl.rd < |cl.got| && cl.got[cl.rd].0 < |cl.boxes| {
        DeliverTokens(cl, t);
        PcTokens(DeliverNext(cl), Idle(false), t);
      } else {
        PcTokens(cl, cl.pc, t);
      }
  }

  lemma Chain(a: Client, b: Client, c: Client, t: nat)
    requires t < |a.boxes| && a.rd <= |a.got| && TokensSame(a, b, t) && TokensSame(b, c, t)
    ensures TokensSame(a, c, t)
  {
  }

  lemma ReadTokens(cl: Client, r: Client, task: Task, t: nat)
    requires t < |cl.boxes| && cl.rd <= |cl.got|
    requires if CanTake(cl) then r == AfterTake(Take(cl), task) else r == cl.(pc := r.pc)
    ensures TokensSame(cl, r, t)
  {
    if CanTake(cl) {
      TakenTokens(cl, t);
      AfterTokens(Take(cl), task, t);
      Chain(cl, Take(cl), r, t);
    } else {
      PcTokens(cl, r.pc, t);
    }
  }

  lemma DrainTokens(n: nat, cl: Client, r: Client, t: nat)
    requires DataOk(n, cl) && t < n
    requires r == if cl.pending == [] then DeliverAll(cl).(pc := Idle(false)) else if CanTake(cl) then Take(cl) else cl
    ensures TokensSame(cl, r, t)
  {
    if cl.pending == [] {
      DrainedTokens(n, cl, t);
    } else if CanTake(cl) {
      TakenTokens(cl, t);
    } else {
      PcTokens(cl, cl.pc, t);
    }
  }

  lemma DrainedTokens(n: nat, cl: Client, t: nat)
    requires DataOk(n, cl) && t < n
    ensures TokensSame(cl, DeliverAll(cl).(pc := Idle(false)), t)
  {
    DeliverAllTokens(n, cl, t);
  }

  lemma TakenTokens(cl: Client, t: nat)
    requires CanTake(cl) && t < |cl.boxes| && cl.rd <= |cl.got|
    ensures TokensSame(cl, Take(cl), t)
  {
    TakeTokens(cl, t);
  }

  lemma WriteTokens(n: nat, cl: Client, s: nat, pc: Pc, t: nat)
    requires n > 0 && DataOk(n, cl) && t < n && s < n
    requires Go1(n, cl) == cl || Go1(n, cl) == Flushed(cl, s).(pc := pc)
    ensures TokensSame(cl, Go1(n, cl), t)
  {
    FlushTokens(cl, s, pc, t);
  }

  lemma GoTokens(n: nat, maxSize: nat, cl: Client, t: nat)
    requires ClientOk(n, maxSize, cl) && t < n
    ensures TokensSame(cl, Go1(n, cl), t)
  {
    match cl.pc
    case Idle(_) =>
    case Admit(_, _) => PcTokens(cl, Go1(n, cl).pc, t);
    case Read(task) => ReadTokens(cl, Go1(n, cl), task, t);
    case ReadBlock(task) => ReadTokens(cl, Go1(n, cl), task, t);
    case Drain => DrainTokens(n, cl, Go1(n, cl), t);
    case Put(_, _, _) => PutTokens(n, maxSize, cl, t);
    case PutFlush(s, op, batch) => WriteTokens(n, cl, s, Put(s, op, batch), t);
    case ReadFlush(task) => WriteTokens(n, cl, cl.pending[0], ReadBlock(task), t);
    case ReadyFlush(s) => WriteTokens(n, cl, s, Idle(false), t);
    case FlushAll(s) => if s == n { PcTokens(cl, Drain, t); } else { WriteTokens(n, cl, s, FlushAll(s + 1), t); }
  }

  lemma LaterTokens(cl: Client, t: nat)
    requires cl.later != [] && cl.later[0].0 < |cl.boxes| && t < |cl.boxes| && cl.rd <= |cl.got|
    ensures TokensSame(cl, DeliverLater(cl), t)
  {
    var (s, a) := cl.later[0];
    RouteHead(cl.later, t);
    if t == s {
      var b, rest := cl.boxes[s], Route(cl.later[1..], s);
      BagSnoc(rest, a);
      HandOver(multiset(rest), multiset(Route(cl.got[cl.rd..], s)), b.held, multiset(b.out + b.replies),
               multiset(Returned(Unserved(b))), a);
    }
  }

  lemma HandOver(l: multiset<Answer>, a: multiset<Answer>, h: multiset<Answer>, c: multiset<Answer>,
                 d: multiset<Answer>, x: Answer)
    ensures l + (a + (h + multiset{x}) + c + d) == (multiset{x} + l) + (a + h + c + d)
  {
  }

  lemma SetAsideTokens(cl: Client, t: nat)
    requires t < |cl.boxes| && cl.rd <= |cl.got|
    ensures TokensSame(cl, SetAside(cl), t)
  {
    var recent, r := cl.got[cl.rd..], SetAside(cl);
    RouteConcat(cl.later, recent, t);
    assert r.got[r.rd..] == [];
    assert multiset(Route(cl.later, t) + Route(recent, t)) == multiset(Route(cl.later, t)) + multiset(Route(recent, t));
    Regroup(multiset(Route(cl.later, t)), multiset(Route(recent, t)), cl.boxes[t].held,
            multiset(cl.boxes[t].out + cl.boxes[t].replies), multiset(Returned(Unserved(cl.boxes[t]))));
  }

  lemma Regroup(l: multiset<Answer>, a: multiset<Answer>, h: multiset<Answer>, c: multiset<Answer>, d: multiset<Answer>)
    ensures (l + a) + (multiset{} + h + c + d) == l + (a + h + c + d)
  {
  }

  lemma ClientStepTokens(n: nat, maxSize: nat, cl: Client, a: Act, t: nat)
    requires ClientOk(n, maxSize, cl) && t < n
    ensures TokensSame(cl, ClientStep(n, cl, a), t)
  {
    if a == Go {
      GoTokens(n, maxSize, cl, t);
    } else if a == Get {
      GetTokens(n, cl, t);
    } else if a == BeginBatch {
      BatchTokens(n, cl, t);
    } else {
      CallTokens(n, cl, a, t);
    }
  }

  lemma BatchTokens(n: nat, cl: Client, t: nat)
    requires n > 0 && n == |cl.boxes| == |cl.credit| && cl.rd <= |cl.got| && t < n
    ensures TokensSame(cl, ClientStep(n, cl, BeginBatch), t)
  {
    SetAsideTokens(cl, t);
    PcTokens(SetAside(cl), Idle(true), t);
  }

  lemma CallTokens(n: nat, cl: Client, a: Act, t: nat)
    requires n > 0 && n == |cl.boxes| == |cl.credit| && cl.rd <= |cl.got| && t < n
    requires a.Begin? || a.GiveBack? || a.EndBatch?
    ensures TokensSame(cl, ClientStep(n, cl, a), t)
  {
    PcTokens(cl, ClientStep(n, cl, a).pc, t);
  }

  lemma GetTokens(n: nat, cl: Client, t: nat)
    requires n > 0 && DataOk(n, cl) && t < n
    ensures TokensSame(cl, ClientStep(n, cl, Get), t)
  {
    if cl.later != [] {
      LaterTokens(cl, t);
    } else if cl.rd < |cl.got| {
      DeliverTokens(cl, t);
    } else {
      PcTokens(cl, Read(Deliver), t);
    }
  }

  // Server steps: only serving a request changes the tokens.

  lemma PollTokens(cl: Client, s: nat)
    requires s < |cl.boxes| && cl.rd <= |cl.got| && cl.boxes[s].ring != [] && cl.boxes[s].hand == []
    ensures Tokens(SetBox(cl, s, Poll(cl.boxes[s])), s) == Tokens(cl, s)
  {
    var b := cl.boxes[s];
    FlatHead(b.ring);
    assert Unserved(Poll(b)) == Unserved(b);
  }

  lemma PushTokens(cl: Client, s: nat)
    requires s < |cl.boxes| && cl.rd <= |cl.got|
    ensures Tokens(SetBox(cl, s, Push(cl.boxes[s])), s) == Tokens(cl, s)
  {
    var b := cl.boxes[s];
    assert b.out + b.replies + [] == b.out + b.replies;
  }

  lemma ServeTokens(cl: Client, s: nat, a: Option<Answer>)
    requires s < |cl.boxes| && cl.rd <= |cl.got| && cl.boxes[s].hand != []
    requires a.None? <==> cl.boxes[s].hand[0].Release?
    ensures var op := cl.boxes[s].hand[0];
            && (op.Release? ==> op.ref in Tokens(cl, s))
            && Tokens(SetBox(cl, s, Serve(cl.boxes[s], a)), s) == Refs(Tokens(cl, s), op, a)
  {
    ServeMoving(cl, s, a);
    RefsBeside(multiset(Route(cl.later, s)), Moving(cl, s), cl.boxes[s].hand[0], a);
  }

  lemma RefsBeside(l: multiset<Answer>, m: multiset<Answer>, op: Op, a: Option<Answer>)
    requires op.Release? ==> op.ref in m
    ensures l + Refs(m, op, a) == Refs(l + m, op, a)
    ensures op.Release? ==> op.ref in l + m
  {
  }

  lemma ServeMoving(cl: Client, s: nat, a: Option<Answer>)
    requires s < |cl.boxes| && cl.rd <= |cl.got| && cl.boxes[s].hand != []
    requires a.None? <==> cl.boxes[s].hand[0].Release?
    ensures var op := cl.boxes[s].hand[0];
            && (op.Release? ==> op.ref in Moving(cl, s))
            && Moving(SetBox(cl, s, Serve(cl.boxes[s], a)), s) == Refs(Moving(cl, s), op, a)
  {
    var b := cl.boxes[s];
    var op, r := b.hand[0], Serve(b, a);
    var u := Unserved(b);
    assert u[0] == op && u[1..] == Unserved(r);
    ReturnedHead(u);
    var A, C, D := multiset(Route(cl.got[cl.rd..], s)), multiset(b.out + b.replies), multiset(Returned(u[1..]));
    if op.Release? {
      BagSnoc(Returned(u[1..]), op.ref);
      assert r.replies == b.replies;
      Exchange(A, b.held, C, D, op.ref);
    } else {
      Assoc(b.out, b.replies, [a.value]);
      BagSnoc(b.out + b.replies, a.value);
      Exchange(A, b.held, C, D, a.value);
      assert Returned(u) == Returned(u[1..]);
    }
  }

  // The sum over the clients.

  ghost function Sum(cls: seq<Client>, s: nat): multiset<Answer>
    requires forall c :: 0 <= c < |cls| ==> s < |cls[c].boxes| && cls[c].rd <= |cls[c].got|
  {
    if cls == [] then multiset{} else Sum(cls[..|cls| - 1], s) + Tokens(cls[|cls| - 1], s)
  }

  lemma Swap(a: multiset<Answer>, x: multiset<Answer>, y: multiset<Answer>, z: multiset<Answer>)
    requires x <= a
    ensures x <= a + z && (a - x + y) + z == (a + z) - x + y
    ensures (a + x) - x + y == a + y
  {
  }

  lemma {:induction false} SumUpdate(cls: seq<Client>, s: nat, c: nat, cl: Client)
    requires forall d :: 0 <= d < |cls| ==> s < |cls[d].boxes| && cls[d].rd <= |cls[d].got|
    requires c < |cls| && s < |cl.boxes| && cl.rd <= |cl.got|
    ensures Tokens(cls[c], s) <= Sum(cls, s)
    ensures Sum(cls[c := cl], s) == Sum(cls, s) - Tokens(cls[c], s) + Tokens(cl, s)
  {
    var init, upd := cls[..|cls| - 1], cls[c := cl];
    var last := Tokens(cls[|cls| - 1], s);
    if c == |cls| - 1 {
      assert upd[..|upd| - 1] == init;
      Swap(last, last, Tokens(cl, s), Sum(init, s));
    } else {
      SumUpdate(init, s, c, cl);
      assert upd[..|upd| - 1] == init[c := cl];
      Swap(Sum(init, s), Tokens(cls[c], s), Tokens(cl, s), last);
    }
  }

  lemma SumSame(cls: seq<Client>, s: nat, c: nat, cl: Client)
    requires forall d :: 0 <= d < |cls| ==> s < |cls[d].boxes| && cls[d].rd <= |cls[d].got|
    requires c < |cls| && s < |cl.boxes| && cl.rd <= |cl.got| && Tokens(cl, s) == Tokens(cls[c], s)
    ensures Sum(cls[c := cl], s) == Sum(cls, s)
  {
    SumUpdate(cls, s, c, cl);
  }

  lemma ChangeIn(whole: multiset<Answer>, part: multiset<Answer>, op: Op, a: Option<Answer>)
    requires part <= whole && (op.Release? ==> op.ref in part)
    ensures whole - part + Refs(part, op, a) == Refs(whole, op, a)
    ensures op.Release? ==> op.ref in whole
  {
  }

  lemma SumRefs(cls: seq<Client>, s: nat, c: nat, cl: Client, op: Op, a: Option<Answer>)
    requires forall d :: 0 <= d < |cls| ==> s < |cls[d].boxes| && cls[d].rd <= |cls[d].got|
    requires c < |cls| && s < |cl.boxes| && cl.rd <= |cl.got|
    requires op.Release? ==> op.ref in Tokens(cls[c], s)
    requires Tokens(cl, s) == Refs(Tokens(cls[c], s), op, a)
    ensures Sum(cls[c := cl], s) == Refs(Sum(cls, s), op, a)
    ensures op.Release? ==> op.ref in Sum(cls, s)
  {
    SumUpdate(cls, s, c, cl);
    ChangeIn(Sum(cls, s), Tokens(cls[c], s), op, a);
  }
}
